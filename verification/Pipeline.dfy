/** The whole process: the handoff, the NodeFS table and the replies, from the kernel's
    request to its answer. A handler runs inside the event loop's call step. */
module Pipeline {
  import opened Numbers
  import opened Marshalling
  import opened PathIndex
  import opened Dirents
  import opened Replies
  import opened Handlers
  import opened Answers
  import opened TableRuns
  import opened Handoff
  import opened HandoffRuns
  import opened HandoffProgress

  /** One reply, with the number of the request it answers. */
  datatype Sent = Sent(request: nat, msg: Msg)

  /** `reading` holds the requests whose read has been started and not completed. */
  datatype Process = Process(handoff: State, tree: Tree, reading: set<nat>, answers: seq<Sent>)

  /** A step of either thread, or a read that completes with these bytes. */
  datatype Move = Act(a: Action) | CompleteRead(request: nat, bytes: Bytes)

  const START: Process := Process(INITIAL_HANDOFF, PathIndex.INITIAL, {}, [])
  const INITIAL_HANDOFF: State := Handoff.INITIAL

  function Tag(k: nat, sent: seq<Msg>): seq<Sent> {
    seq(|sent|, i requires 0 <= i < |sent| => Sent(k, sent[i]))
  }

  /** Whether the call that comes next ends the process: the handler decides. */
  ghost predicate NextEnds(reqs: seq<Callback>, worlds: Worlds, p: Process) {
    var h := Step(reqs, p.handoff, Call(false));
    var n := |p.handoff.log|;
    |h.log| > n && Handle(h.log[n].call, p.tree, worlds(n)).fatal
  }

  /** The action a thread really takes. */
  ghost function Resolved(reqs: seq<Callback>, worlds: Worlds, p: Process, a: Action): Action {
    if a.Call? then Call(NextEnds(reqs, worlds, p)) else a
  }

  /** Once the process has ended nothing happens any more, reads included. */
  ghost function Advance(reqs: seq<Callback>, worlds: Worlds, p: Process, m: Move): Process {
    match m
    case Act(a) =>
      var h := Step(reqs, p.handoff, Resolved(reqs, worlds, p, a));
      var n := |p.handoff.log|;
      if |h.log| <= n then p.(handoff := h) else
        var o := Handle(h.log[n].call, p.tree, worlds(n));
        var k := h.log[n].record;
        Process(h, ApplyAll(p.tree, o.events), if o.reading then p.reading + {k} else p.reading,
                p.answers + Tag(k, o.sent))
    case CompleteRead(k, bytes) =>
      if p.handoff.consumer.Exited? || k !in p.reading then p
      else p.(reading := p.reading - {k}, answers := p.answers + [Sent(k, Buf(bytes))])
  }

  ghost function Proceed(reqs: seq<Callback>, worlds: Worlds, p: Process, moves: seq<Move>): Process
    decreases |moves|
  {
    if moves == [] then p else Proceed(reqs, worlds, Advance(reqs, worlds, p, moves[0]), moves[1..])
  }

  lemma ProceedOne(reqs: seq<Callback>, worlds: Worlds, p: Process, moves: seq<Move>, m: Move)
    ensures Proceed(reqs, worlds, p, moves + [m]) == Advance(reqs, worlds, Proceed(reqs, worlds, p, moves), m)
  {
    hide Advance;
    ProceedConcat(reqs, worlds, p, moves, [m]);
    assert [m][1..] == [];
  }

  lemma {:induction false} ProceedConcat(reqs: seq<Callback>, worlds: Worlds, p: Process, x: seq<Move>, y: seq<Move>)
    ensures Proceed(reqs, worlds, p, x + y) == Proceed(reqs, worlds, Proceed(reqs, worlds, p, x), y)
    decreases |x|
  {
    hide Advance;
    if x == [] {
      assert x + y == y;
    } else {
      assert (x + y)[1..] == x[1..] + y;
      ProceedConcat(reqs, worlds, Advance(reqs, worlds, p, x[0]), x[1..], y);
    }
  }

  // ---- The replies to one request ----

  /** The messages that answer request k, in the order in which they were sent. */
  function RepliesTo(answers: seq<Sent>, k: nat): seq<Msg> {
    if answers == [] then [] else
      var last := answers[|answers| - 1];
      RepliesTo(answers[..|answers| - 1], k) + if last.request == k then [last.msg] else []
  }

  lemma {:induction false} RepliesConcat(x: seq<Sent>, y: seq<Sent>, k: nat)
    ensures RepliesTo(x + y, k) == RepliesTo(x, k) + RepliesTo(y, k)
    decreases |y|
  {
    if y == [] {
      assert x + y == x;
    } else {
      assert (x + y)[..|x + y| - 1] == x + y[..|y| - 1];
      RepliesConcat(x, y[..|y| - 1], k);
    }
  }

  lemma {:induction false} RepliesTagged(j: nat, sent: seq<Msg>, k: nat)
    ensures RepliesTo(Tag(j, sent), k) == if j == k then sent else []
  {
    if sent != [] {
      var front := sent[..|sent| - 1];
      assert Tag(j, sent)[..|sent| - 1] == Tag(j, front);
      RepliesTagged(j, front, k);
      assert sent == front + [sent[|sent| - 1]];
    }
  }

  /** What the read that request k has started replies: the bytes of the move that has
      completed it while it was open, and nothing as long as there is none. */
  ghost function ReadReply(reqs: seq<Callback>, worlds: Worlds, moves: seq<Move>, k: nat): seq<Msg>
    decreases |moves|
  {
    if moves == [] then [] else
      var front, last := moves[..|moves| - 1], moves[|moves| - 1];
      var p := Proceed(reqs, worlds, START, front);
      if last.CompleteRead? && last.request == k && k in p.reading && !p.handoff.consumer.Exited?
      then [Buf(last.bytes)]
      else ReadReply(reqs, worlds, front, k)
  }

  lemma {:induction false} ReadReplyIs(reqs: seq<Callback>, worlds: Worlds, moves: seq<Move>, k: nat)
    requires ReadReply(reqs, worlds, moves, k) != []
    ensures exists i :: (
      && 0 <= i < |moves| && moves[i].CompleteRead? && moves[i].request == k
      && k in Proceed(reqs, worlds, START, moves[..i]).reading
      && ReadReply(reqs, worlds, moves, k) == [Buf(moves[i].bytes)])
    decreases |moves|
  {
    hide Proceed;
    var front, last := moves[..|moves| - 1], moves[|moves| - 1];
    var p := Proceed(reqs, worlds, START, front);
    if last.CompleteRead? && last.request == k && k in p.reading && !p.handoff.consumer.Exited? {
      assert moves[|moves| - 1] == last;
    } else {
      ReadReplyIs(reqs, worlds, front, k);
      var i :| 0 <= i < |front| && front[i].CompleteRead? && front[i].request == k
        && k in Proceed(reqs, worlds, START, front[..i]).reading
        && ReadReply(reqs, worlds, front, k) == [Buf(front[i].bytes)];
      assert moves[..i] == front[..i] && moves[i] == front[i];
    }
  }

  lemma ReadReplyOne(reqs: seq<Callback>, worlds: Worlds, moves: seq<Move>, m: Move, k: nat)
    ensures
      var p := Proceed(reqs, worlds, START, moves);
      ReadReply(reqs, worlds, moves + [m], k) ==
        if m.CompleteRead? && m.request == k && k in p.reading && !p.handoff.consumer.Exited?
        then [Buf(m.bytes)] else ReadReply(reqs, worlds, moves, k)
  {
    hide Proceed;
    assert (moves + [m])[..|moves|] == moves;
  }

  // ---- What holds while no store has intruded ----

  /** Each request dispatched so far has found its own table and has got exactly the
      replies of its handler and then that of its read; the open reads are those without a
      reply; only the last handler can have ended the process. */
  ghost predicate Accounted(reqs: seq<Callback>, worlds: Worlds, p: Process, moves: seq<Move>) {
    var n := |p.handoff.log|;
    && Inv(reqs, p.handoff) && n <= |reqs|
    && p.tree == TreeAt(reqs, worlds, n)
    && Replied(reqs, worlds, p.answers, moves, n)
    && OpenReads(reqs, worlds, p.reading, moves, n)
    && (forall k: nat :: k < n && OutcomeOf(reqs, worlds, k).fatal ==> p.handoff.consumer.Exited? && k == n - 1)
    && (p.handoff.consumer.Exited? ==> n > 0 && OutcomeOf(reqs, worlds, n - 1).fatal)
  }

  ghost predicate Replied(reqs: seq<Callback>, worlds: Worlds, answers: seq<Sent>, moves: seq<Move>, n: nat)
    requires n <= |reqs|
  {
    forall k: nat :: RepliesTo(answers, k) ==
      if k < n then OutcomeOf(reqs, worlds, k).sent + ReadReply(reqs, worlds, moves, k) else []
  }

  ghost predicate OpenReads(reqs: seq<Callback>, worlds: Worlds, reading: set<nat>, moves: seq<Move>, n: nat)
    requires n <= |reqs|
  {
    && (forall k: nat :: k in reading <==>
      k < n && OutcomeOf(reqs, worlds, k).reading && ReadReply(reqs, worlds, moves, k) == [])
    && (forall k: nat :: ReadReply(reqs, worlds, moves, k) != [] ==> k < n && OutcomeOf(reqs, worlds, k).reading)
  }

  ghost predicate Fine(reqs: seq<Callback>, worlds: Worlds, moves: seq<Move>) {
    var p := Proceed(reqs, worlds, START, moves);
    Good(reqs, p.handoff) && (p.handoff.intruded || Accounted(reqs, worlds, p, moves))
  }

  lemma StartIsFine(reqs: seq<Callback>, worlds: Worlds)
    ensures Fine(reqs, worlds, [])
  {
    InitialInv(reqs);
  }

  /** The log and the end of the process are the call's business. */
  predicate Quiet(t: State, s: State) { t.log == s.log && t.consumer.Exited? == s.consumer.Exited? }

  lemma QuietSession(reqs: seq<Callback>, s: State)
    ensures Quiet(DoPack(reqs, s), s) && Quiet(DoSpin(s), s) && Quiet(DoNewRecord(reqs, s), s)
    ensures Quiet(DoStore(s), s) && forall x :: Quiet(DoSend(s, x), s)
  {
    hide Slots, RecordFor, ReceivedText;
  }

  lemma QuietLoads(s: State)
    ensures Quiet(DoClear(s), s) && Quiet(DoLoad1(s), s) && Quiet(DoLoad2(s), s)
  {
  }

  lemma QuietFrees(s: State)
    ensures Quiet(DoFreeName(s), s) && Quiet(DoFreeArgs(s), s) && Quiet(DoFreeRecord(s), s)
  {
  }

  /** Steps other than the call neither dispatch nor end the process. */
  lemma QuietStep(reqs: seq<Callback>, s: State, a: Action)
    requires !a.Call?
    ensures Quiet(Step(reqs, s, a), s)
  {
    hide DoPack, DoSpin, DoNewRecord, DoStore, DoSend, DoClear, DoLoad1, DoLoad2, DoCall, DoFreeName, DoFreeArgs,
      DoFreeRecord;
    QuietSession(reqs, s);
    QuietLoads(s);
    QuietLoads(DoClear(s));
    QuietLoads(DoLoad1(DoClear(s)));
    QuietFrees(s);
  }

  /** A move that dispatches nothing and completes no read. */
  lemma QuietMove(reqs: seq<Callback>, worlds: Worlds, p: Process, moves: seq<Move>, h: State, longer: seq<Move>)
    requires Accounted(reqs, worlds, p, moves) && Inv(reqs, h)
    requires Quiet(h, p.handoff)
    requires forall k: nat :: ReadReply(reqs, worlds, longer, k) == ReadReply(reqs, worlds, moves, k)
    ensures Accounted(reqs, worlds, p.(handoff := h), longer)
  {
    hide Inv, Handle, OutcomeOf, TreeAt, ReadReply, RepliesTo;
  }

  /** The call step, seen from the invariant. */
  lemma CallMove(reqs: seq<Callback>, s: State, fatal: bool)
    requires Inv(reqs, s)
    ensures
      var h := Step(reqs, s, Call(fatal));
      var n := |s.log|;
      if s.consumer.Taken?
      then n < |reqs| && h.log == s.log + [Dispatched(n, reqs[n])] && h.consumer.Exited? == fatal
      else h == s
  {
    hide Inv, DoCall;
    NotFaulty(reqs, s);
    if s.consumer.Taken? {
      CallIs(reqs, s, fatal);
      TakenIsNext(reqs, s);
      assert Step(reqs, s, Call(fatal)) == DoCall(s, fatal);
      assert DoCall(s, fatal).log == s.log + [Dispatched(|s.log|, reqs[|s.log|])];
      assert DoCall(s, fatal).consumer.Exited? == fatal;
    } else {
      NothingTaken(s, fatal);
    }
  }

  lemma TakenIsNext(reqs: seq<Callback>, s: State)
    requires Inv(reqs, s) && s.consumer.Taken?
    ensures s.begun - 1 == |s.log| < |reqs|
  {
    hide ArraysAre, RecordsAre, NamesAre, FreedSoFar;
  }

  lemma NothingTaken(s: State, fatal: bool)
    requires !s.consumer.Taken?
    ensures DoCall(s, fatal) == s
  {
  }

  /** A dispatch adds its handler's replies and updates. */
  lemma DispatchMove(reqs: seq<Callback>, worlds: Worlds, p: Process, moves: seq<Move>, h: State, longer: seq<Move>, n: nat)
    requires n == |p.handoff.log| < |reqs|
    requires h.log == p.handoff.log + [Dispatched(n, reqs[n])]
    requires h.consumer.Exited? == OutcomeOf(reqs, worlds, n).fatal
    requires Accounted(reqs, worlds, p, moves) && Inv(reqs, h) && !p.handoff.consumer.Exited?
    requires forall k: nat :: ReadReply(reqs, worlds, longer, k) == ReadReply(reqs, worlds, moves, k)
    ensures
      var o := OutcomeOf(reqs, worlds, n);
      Accounted(reqs, worlds, Process(h, ApplyAll(p.tree, o.events),
        if o.reading then p.reading + {n} else p.reading, p.answers + Tag(n, o.sent)), longer)
  {
    hide Inv, Handle, Replied, OpenReads, Tag, ApplyAll, TreeAt, OutcomeOf, ReadReply;
    NextTree(reqs, worlds, n);
    RepliesGrow(reqs, worlds, p.answers, p.reading, moves, longer, n);
  }

  lemma RepliesGrow(reqs: seq<Callback>, worlds: Worlds, answers: seq<Sent>, reading: set<nat>, moves: seq<Move>, longer: seq<Move>, n: nat)
    requires n < |reqs| && Replied(reqs, worlds, answers, moves, n) && OpenReads(reqs, worlds, reading, moves, n)
    requires forall k: nat :: ReadReply(reqs, worlds, longer, k) == ReadReply(reqs, worlds, moves, k)
    ensures
      var o := OutcomeOf(reqs, worlds, n);
      && Replied(reqs, worlds, answers + Tag(n, o.sent), longer, n + 1)
      && OpenReads(reqs, worlds, if o.reading then reading + {n} else reading, longer, n + 1)
  {
    hide RepliesTo, Tag, OutcomeOf, ReadReply;
    var o := OutcomeOf(reqs, worlds, n);
    forall k: nat
      ensures RepliesTo(answers + Tag(n, o.sent), k) == RepliesTo(answers, k) + if k == n then o.sent else []
    {
      RepliesConcat(answers, Tag(n, o.sent), k);
      RepliesTagged(n, o.sent, k);
    }
    assert ReadReply(reqs, worlds, moves, n) == [];
  }

  /** What the completion of request j's read, if it is open, does to the replies ... */
  lemma RepliedAfterRead(reqs: seq<Callback>, worlds: Worlds, answers: seq<Sent>, moves: seq<Move>, longer: seq<Move>, n: nat,
    j: nat, bytes: Bytes, open: bool)
    requires n <= |reqs| && Replied(reqs, worlds, answers, moves, n)
    requires open ==> j < n && ReadReply(reqs, worlds, moves, j) == []
    requires forall k: nat ::
      ReadReply(reqs, worlds, longer, k) == if open && k == j then [Buf(bytes)] else ReadReply(reqs, worlds, moves, k)
    ensures Replied(reqs, worlds, if open then answers + [Sent(j, Buf(bytes))] else answers, longer, n)
  {
    hide OutcomeOf, ReadReply;
    if open {
      var after := answers + [Sent(j, Buf(bytes))];
      assert after[..|answers|] == answers;
      forall k: nat
        ensures RepliesTo(after, k) ==
          if k < n then OutcomeOf(reqs, worlds, k).sent + ReadReply(reqs, worlds, longer, k) else []
      {
        assert RepliesTo(after, k) == RepliesTo(answers, k) + if k == j then [Buf(bytes)] else [];
      }
    }
  }

  /** ... and to the open reads. */
  lemma OpenAfterRead(reqs: seq<Callback>, worlds: Worlds, reading: set<nat>, moves: seq<Move>, longer: seq<Move>, n: nat,
    j: nat, bytes: Bytes, open: bool)
    requires n <= |reqs| && OpenReads(reqs, worlds, reading, moves, n)
    requires open ==> j in reading
    requires forall k: nat ::
      ReadReply(reqs, worlds, longer, k) == if open && k == j then [Buf(bytes)] else ReadReply(reqs, worlds, moves, k)
    ensures OpenReads(reqs, worlds, if open then reading - {j} else reading, longer, n)
  {
    hide OutcomeOf, ReadReply;
  }

  /** An open read completes. */
  lemma ReadMove(reqs: seq<Callback>, worlds: Worlds, moves: seq<Move>, j: nat, bytes: Bytes)
    requires Accounted(reqs, worlds, Proceed(reqs, worlds, START, moves), moves)
    ensures Accounted(reqs, worlds,
      Advance(reqs, worlds, Proceed(reqs, worlds, START, moves), CompleteRead(j, bytes)), moves + [CompleteRead(j, bytes)])
  {
    hide Inv, Handle, OutcomeOf, TreeAt, Proceed, ReadReply, Replied, OpenReads;
    var p := Proceed(reqs, worlds, START, moves);
    var m := CompleteRead(j, bytes);
    var open := j in p.reading && !p.handoff.consumer.Exited?;
    var n := |p.handoff.log|;
    forall k: nat
      ensures ReadReply(reqs, worlds, moves + [m], k) ==
        if open && k == j then [Buf(bytes)] else ReadReply(reqs, worlds, moves, k)
    {
      ReadReplyOne(reqs, worlds, moves, m, k);
    }
    if open {
      OpenIs(reqs, worlds, p.reading, moves, n, j);
    }
    RepliedAfterRead(reqs, worlds, p.answers, moves, moves + [m], n, j, bytes, open);
    OpenAfterRead(reqs, worlds, p.reading, moves, moves + [m], n, j, bytes, open);
  }

  lemma OpenIs(reqs: seq<Callback>, worlds: Worlds, reading: set<nat>, moves: seq<Move>, n: nat, j: nat)
    requires n <= |reqs| && OpenReads(reqs, worlds, reading, moves, n) && j in reading
    ensures j < n && ReadReply(reqs, worlds, moves, j) == []
  {
    hide OutcomeOf, ReadReply;
  }

  lemma AdvanceHandoff(reqs: seq<Callback>, worlds: Worlds, p: Process, m: Move)
    ensures Advance(reqs, worlds, p, m).handoff ==
      if m.Act? then Step(reqs, p.handoff, Resolved(reqs, worlds, p, m.a)) else p.handoff
  {
    hide Step, Resolved, Handle;
  }

  lemma ActMove(reqs: seq<Callback>, worlds: Worlds, moves: seq<Move>, a: Action)
    requires
      var p := Proceed(reqs, worlds, START, moves);
      && Accounted(reqs, worlds, p, moves) && !p.handoff.intruded
      && !Advance(reqs, worlds, p, Act(a)).handoff.intruded
    ensures Accounted(reqs, worlds, Advance(reqs, worlds, Proceed(reqs, worlds, START, moves), Act(a)), moves + [Act(a)])
  {
    hide Step, Handle, Inv, Accounted, OutcomeOf, Proceed, ReadReply;
    var p := Proceed(reqs, worlds, START, moves);
    var r := Resolved(reqs, worlds, p, a);
    var longer := moves + [Act(a)];
    AdvanceHandoff(reqs, worlds, p, Act(a));
    var h := Step(reqs, p.handoff, r);
    AccountedInv(reqs, worlds, p, moves);
    StepKeeps(reqs, p.handoff, r);
    forall k: nat
      ensures ReadReply(reqs, worlds, longer, k) == ReadReply(reqs, worlds, moves, k)
    {
      ReadReplyOne(reqs, worlds, moves, Act(a), k);
    }
    if r.Call? {
      CallMove(reqs, p.handoff, r.fatal);
      CallMove(reqs, p.handoff, false);
      if p.handoff.consumer.Taken? {
        OutcomeHere(reqs, worlds, p, moves);
        DispatchMove(reqs, worlds, p, moves, h, longer, |p.handoff.log|);
      } else {
        QuietMove(reqs, worlds, p, moves, h, longer);
      }
    } else {
      QuietStep(reqs, p.handoff, r);
      QuietMove(reqs, worlds, p, moves, h, longer);
    }
  }

  lemma AccountedInv(reqs: seq<Callback>, worlds: Worlds, p: Process, moves: seq<Move>)
    requires Accounted(reqs, worlds, p, moves)
    ensures Inv(reqs, p.handoff)
  {
    hide Inv, OutcomeOf, TreeAt;
  }

  lemma OutcomeHere(reqs: seq<Callback>, worlds: Worlds, p: Process, moves: seq<Move>)
    requires Accounted(reqs, worlds, p, moves) && |p.handoff.log| < |reqs|
    ensures
      var n := |p.handoff.log|;
      OutcomeOf(reqs, worlds, n) == Handle(reqs[n], p.tree, worlds(n))
  {
    hide Inv, Handle, TreeAt, Replied, OpenReads;
  }

  lemma AdvanceFine(reqs: seq<Callback>, worlds: Worlds, moves: seq<Move>, m: Move)
    requires Fine(reqs, worlds, moves)
    ensures Fine(reqs, worlds, moves + [m])
  {
    hide Step, Resolved, Accounted, Advance, Good, Proceed;
    var p := Proceed(reqs, worlds, START, moves);
    ProceedOne(reqs, worlds, START, moves, m);
    AdvanceHandoff(reqs, worlds, p, m);
    match m
    case Act(a) =>
      StepGood(reqs, p.handoff, Resolved(reqs, worlds, p, a));
      IntrudedByStore(reqs, p.handoff, Resolved(reqs, worlds, p, a));
      if !Advance(reqs, worlds, p, m).handoff.intruded {
        ActMove(reqs, worlds, moves, a);
      }
    case CompleteRead(k, bytes) =>
      if !p.handoff.intruded {
        ReadMove(reqs, worlds, moves, k, bytes);
      }
  }

  lemma {:induction false} AlwaysFine(reqs: seq<Callback>, worlds: Worlds, moves: seq<Move>)
    ensures Fine(reqs, worlds, moves)
    decreases |moves|
  {
    hide Fine;
    if moves == [] {
      StartIsFine(reqs, worlds);
    } else {
      var front, last := moves[..|moves| - 1], moves[|moves| - 1];
      AlwaysFine(reqs, worlds, front);
      AdvanceFine(reqs, worlds, front, last);
      assert moves == front + [last];
    }
  }

  // ---- Answered exactly once ----

  /** No handler before the k-th ends the process. */
  ghost predicate Reached(reqs: seq<Callback>, worlds: Worlds, k: nat)
    requires k <= |reqs|
  {
    forall j :: 0 <= j < k ==> !Ends(reqs[j], TreeAt(reqs, worlds, j), worlds(j))
  }

  lemma FatalIff(reqs: seq<Callback>, worlds: Worlds, j: nat)
    requires j < |reqs|
    ensures OutcomeOf(reqs, worlds, j).fatal <==> Ends(reqs[j], TreeAt(reqs, worlds, j), worlds(j))
  {
    hide Handle, Ends, TreeAt;
    EndsIff(reqs[j], TreeAt(reqs, worlds, j), worlds(j));
  }

  lemma ReadingOnce(cb: Callback, t: Tree, w: World)
    requires Handle(cb, t, w).reading
    ensures Attempts(Handle(cb, t, w)) == 1
  {
    hide Handle, ListOutcome;
    if cb.ReadDir? {
      HandleIs(cb, t, w);
      ListReadsNothing(At(t, Key(cb.ino)), cb, w);
    } else {
      OneUnlessListing(cb, t, w);
    }
  }

  lemma ListReadsNothing(dir: Option<Text>, cb: Callback, w: World)
    requires cb.ReadDir?
    ensures !ListOutcome(dir, ToWord(ToInt32(cb.size)), ToInt32(cb.off), w).reading
  {
    hide PassedCount, Handlers.StoredCount, Rejections, Accepted, SerializeAll, Listing;
  }

  /** Whatever the threads, the reads and the file system do: as soon as a handler has
      ended the process, no later request has a reply, nor will it get one. */
  lemma LaterUnanswered(reqs: seq<Callback>, worlds: Worlds, moves: seq<Move>, j: nat, k: nat)
    requires j < k < |reqs| && Ends(reqs[j], TreeAt(reqs, worlds, j), worlds(j))
    requires !Proceed(reqs, worlds, START, moves).handoff.intruded
    ensures RepliesTo(Proceed(reqs, worlds, START, moves).answers, k) == []
  {
    hide Proceed, Ends, OutcomeOf, TreeAt, Inv, RepliesTo, ReadReply;
    AlwaysFine(reqs, worlds, moves);
    FatalIff(reqs, worlds, j);
  }

  /** A setxattr on Linux silences the rest of its session. */
  lemma SetXAttrSilences(reqs: seq<Callback>, worlds: Worlds, moves: seq<Move>, k: nat)
    requires 0 < k < |reqs| && reqs[0].SetXAttr?
    requires !Proceed(reqs, worlds, START, moves).handoff.intruded
    ensures RepliesTo(Proceed(reqs, worlds, START, moves).answers, k) == []
  {
    hide Proceed, TreeAt;
    LaterUnanswered(reqs, worlds, moves, 0, k);
  }

  /** At any time in any run without intrusion, what has been sent in answer to a request
      is exactly what its handler sends, in order, and then what its read replies; and
      nothing before it is dispatched. */
  lemma RepliesExact(reqs: seq<Callback>, worlds: Worlds, moves: seq<Move>, k: nat)
    requires !Proceed(reqs, worlds, START, moves).handoff.intruded
    ensures
      var p := Proceed(reqs, worlds, START, moves);
      && |p.handoff.log| <= |reqs|
      && RepliesTo(p.answers, k) ==
           if k < |p.handoff.log| then OutcomeOf(reqs, worlds, k).sent + ReadReply(reqs, worlds, moves, k) else []
  {
    hide Proceed, OutcomeOf, TreeAt, Inv, RepliesTo, ReadReply;
    AlwaysFine(reqs, worlds, moves);
  }

  /** The replies to request k and how they come about: none unless it is reached, else the
      handler's own, and at the end the one of its read. There is exactly one if and only
      if it is reached, answerable when its turn comes, and its read, if it is one, has
      completed. Init and Destroy get none. */
  ghost predicate AnsweredRightly(reqs: seq<Callback>, worlds: Worlds, moves: seq<Move>, k: nat)
    requires k < |reqs|
  {
    var p := Proceed(reqs, worlds, START, moves);
    var replies := RepliesTo(p.answers, k);
    && replies == (if Reached(reqs, worlds, k)
        then OutcomeOf(reqs, worlds, k).sent + ReadReply(reqs, worlds, moves, k) else [])
    && (k in p.reading <==>
      Reached(reqs, worlds, k) && OutcomeOf(reqs, worlds, k).reading && ReadReply(reqs, worlds, moves, k) == [])
    && (if AwaitsReply(reqs[k])
        then |replies| == 1 <==>
          && Reached(reqs, worlds, k)
          && Answerable(reqs[k], TreeAt(reqs, worlds, k), worlds(k))
          && k !in p.reading
        else replies == [])
  }

  /** When all requests have been dealt with and all reads have completed, or a handler
      has ended the process, every request has been answered rightly. */
  lemma AnsweredOnceOverRuns(reqs: seq<Callback>, worlds: Worlds, moves: seq<Move>, k: nat)
    requires k < |reqs|
    requires
      var p := Proceed(reqs, worlds, START, moves);
      && !p.handoff.intruded && Final(reqs, p.handoff)
    ensures AnsweredRightly(reqs, worlds, moves, k)
  {
    hide Proceed, Ends, TreeAt, Inv, Handle, Answerable, OutcomeOf, RepliesTo, ReadReply;
    var p := Proceed(reqs, worlds, START, moves);
    AlwaysFine(reqs, worlds, moves);
    AccountedInv(reqs, worlds, p, moves);
    DeliveredAtEnd(reqs, worlds, p, moves);
    forall j | 0 <= j < |reqs|
      ensures OutcomeOf(reqs, worlds, j).fatal <==> Ends(reqs[j], TreeAt(reqs, worlds, j), worlds(j))
    {
      FatalIff(reqs, worlds, j);
    }
    assert Reached(reqs, worlds, k) <==> k < |p.handoff.log|;
    AttemptsOf(reqs, worlds, k);
    OneReply(reqs, worlds, moves, k);
  }

  lemma AttemptsOf(reqs: seq<Callback>, worlds: Worlds, k: nat)
    requires k < |reqs|
    ensures
      var o := OutcomeOf(reqs, worlds, k);
      && (o.reading ==> o.sent == [])
      && (if AwaitsReply(reqs[k])
          then (|o.sent| + (if o.reading then 1 else 0) == 1) <==> Answerable(reqs[k], TreeAt(reqs, worlds, k), worlds(k))
          else o.sent == [] && !o.reading)
  {
    hide Handle, Answerable, TreeAt;
    if OutcomeOf(reqs, worlds, k).reading {
      ReadingOnce(reqs[k], TreeAt(reqs, worlds, k), worlds(k));
    }
    if AwaitsReply(reqs[k]) {
      AnsweredOnceIff(reqs[k], TreeAt(reqs, worlds, k), worlds(k));
    } else {
      OneUnlessListing(reqs[k], TreeAt(reqs, worlds, k), worlds(k));
    }
  }

  /** A read replies once at most. */
  lemma OneReply(reqs: seq<Callback>, worlds: Worlds, moves: seq<Move>, k: nat)
    ensures |ReadReply(reqs, worlds, moves, k)| <= 1
  {
    hide ReadReply, Proceed;
    if ReadReply(reqs, worlds, moves, k) != [] {
      ReadReplyIs(reqs, worlds, moves, k);
    }
  }

  lemma DeliveredAtEnd(reqs: seq<Callback>, worlds: Worlds, p: Process, moves: seq<Move>)
    requires Accounted(reqs, worlds, p, moves) && Final(reqs, p.handoff)
    ensures p.handoff.consumer.Exited? || |p.handoff.log| == |reqs|
  {
    hide OutcomeOf, TreeAt, Inv, RepliesTo, ReadReply;
    LogOfInv(reqs, p.handoff);
  }

  // ---- Fair rounds ----

  /** A stretch of moves in which every step gets its turn and every read completes. */
  ghost predicate FairRound(reqs: seq<Callback>, round: seq<Move>, atomic: bool) {
    && (forall a: Action :: Needed(a, atomic) ==> Moves(round, a))
    && (forall k: nat :: k < |reqs| ==> Reads(round, k))
    && (atomic ==> forall i :: 0 <= i < |round| && round[i].Act? ==> IsAtomic(round[i].a))
  }

  predicate Moves(round: seq<Move>, a: Action) {
    exists i :: 0 <= i < |round| && round[i].Act? && Kind(round[i].a) == Kind(a)
  }

  predicate Reads(round: seq<Move>, k: nat) {
    exists i :: 0 <= i < |round| && round[i].CompleteRead? && round[i].request == k
  }

  ghost predicate FairRounds(reqs: seq<Callback>, rounds: seq<seq<Move>>, atomic: bool) {
    forall i :: 0 <= i < |rounds| ==> FairRound(reqs, rounds[i], atomic)
  }

  /** The steps of the threads among the moves. */
  ghost function Acts(reqs: seq<Callback>, worlds: Worlds, p: Process, moves: seq<Move>): seq<Action>
    decreases |moves|
  {
    if moves == [] then [] else
      var rest := Acts(reqs, worlds, Advance(reqs, worlds, p, moves[0]), moves[1..]);
      if moves[0].Act? then [Resolved(reqs, worlds, p, moves[0].a)] + rest else rest
  }

  lemma {:induction false} ActsRun(reqs: seq<Callback>, worlds: Worlds, p: Process, moves: seq<Move>)
    ensures Proceed(reqs, worlds, p, moves).handoff == RunFrom(reqs, p.handoff, Acts(reqs, worlds, p, moves))
    decreases |moves|
  {
    hide Step, Advance, Resolved;
    if moves != [] {
      AdvanceHandoff(reqs, worlds, p, moves[0]);
      ActsRun(reqs, worlds, Advance(reqs, worlds, p, moves[0]), moves[1..]);
    }
  }

  lemma {:induction false} ActsHaveTurn(reqs: seq<Callback>, worlds: Worlds, p: Process, moves: seq<Move>, a: Action)
    requires Moves(moves, a)
    ensures HasTurn(Acts(reqs, worlds, p, moves), a)
    decreases |moves|
  {
    hide Advance, NextEnds;
    var q := Advance(reqs, worlds, p, moves[0]);
    var acts := Acts(reqs, worlds, p, moves);
    if moves[0].Act? && Kind(moves[0].a) == Kind(a) {
      assert Kind(acts[0]) == Kind(a);
    } else {
      var i :| 0 <= i < |moves| && moves[i].Act? && Kind(moves[i].a) == Kind(a);
      assert moves[1..][i - 1] == moves[i];
      ActsHaveTurn(reqs, worlds, q, moves[1..], a);
      var rest := Acts(reqs, worlds, q, moves[1..]);
      var j :| 0 <= j < |rest| && Kind(rest[j]) == Kind(a);
      assert acts[|acts| - |rest| + j] == rest[j];
    }
  }

  lemma {:induction false} ActsAtomic(reqs: seq<Callback>, worlds: Worlds, p: Process, moves: seq<Move>)
    requires forall i :: 0 <= i < |moves| && moves[i].Act? ==> IsAtomic(moves[i].a)
    ensures Atomic(Acts(reqs, worlds, p, moves))
    decreases |moves|
  {
    hide Advance, NextEnds;
    if moves != [] {
      ActsAtomic(reqs, worlds, Advance(reqs, worlds, p, moves[0]), moves[1..]);
    }
  }

  lemma ActsFair(reqs: seq<Callback>, worlds: Worlds, p: Process, round: seq<Move>, atomic: bool)
    requires FairRound(reqs, round, atomic)
    ensures Fair(Acts(reqs, worlds, p, round), atomic)
    ensures atomic ==> Atomic(Acts(reqs, worlds, p, round))
  {
    hide Acts, Moves, HasTurn;
    forall a: Action | Needed(a, atomic)
      ensures HasTurn(Acts(reqs, worlds, p, round), a)
    {
      ActsHaveTurn(reqs, worlds, p, round, a);
    }
    if atomic {
      ActsAtomic(reqs, worlds, p, round);
    }
  }

  /** Enough fair rounds bring the handoff to its end. */
  lemma {:induction false} RoundsEnd(reqs: seq<Callback>, worlds: Worlds, p: Process, rounds: seq<seq<Move>>, atomic: bool)
    requires Sane(reqs, p.handoff) && (atomic ==> Outside(p.handoff)) && FairRounds(reqs, rounds, atomic)
    requires |rounds| >= Measure(reqs, p.handoff)
    ensures
      var h := Proceed(reqs, worlds, p, Flatten(rounds)).handoff;
      Ended(reqs, h) && (atomic ==> Outside(h))
    decreases |rounds|
  {
    hide Step, Sane, Measure, Ended, FairRound, Outside, Proceed, Acts, Fair, Atomic;
    SaneArrived(reqs, p.handoff);
    if Ended(reqs, p.handoff) {
      ActsRun(reqs, worlds, p, Flatten(rounds));
      EndedStays(reqs, p.handoff, Acts(reqs, worlds, p, Flatten(rounds)));
    } else {
      NotDone(reqs, p.handoff);
      var acts := Acts(reqs, worlds, p, rounds[0]);
      var q := Proceed(reqs, worlds, p, rounds[0]);
      ActsRun(reqs, worlds, p, rounds[0]);
      ActsFair(reqs, worlds, p, rounds[0], atomic);
      RoundUsesWork(reqs, p.handoff, acts, atomic);
      if atomic {
        AtomicRunFrom(reqs, p.handoff, acts);
      }
      ProceedConcat(reqs, worlds, p, rounds[0], Flatten(rounds[1..]));
      RoundsEnd(reqs, worlds, q, rounds[1..], atomic);
    }
  }

  /** At the end of the handoff nothing changes but reads that complete. */
  lemma EndedMove(reqs: seq<Callback>, worlds: Worlds, p: Process, m: Move)
    requires Ended(reqs, p.handoff)
    ensures
      var q := Advance(reqs, worlds, p, m);
      && q.handoff == p.handoff && q.reading <= p.reading
      && (m.CompleteRead? && !p.handoff.consumer.Exited? ==> m.request !in q.reading)
  {
    hide Step, Resolved, Ended, Handle;
    if m.Act? {
      EndedStep(reqs, p.handoff, Resolved(reqs, worlds, p, m.a));
    }
  }

  lemma {:induction false} ReadsComplete(reqs: seq<Callback>, worlds: Worlds, p: Process, moves: seq<Move>)
    requires Ended(reqs, p.handoff)
    ensures
      var q := Proceed(reqs, worlds, p, moves);
      && q.handoff == p.handoff && q.reading <= p.reading
      && (!p.handoff.consumer.Exited? ==> forall k: nat :: Reads(moves, k) ==> k !in q.reading)
    decreases |moves|
  {
    hide Advance, Ended;
    if moves != [] {
      var t := Advance(reqs, worlds, p, moves[0]);
      EndedMove(reqs, worlds, p, moves[0]);
      ReadsComplete(reqs, worlds, t, moves[1..]);
      var q := Proceed(reqs, worlds, p, moves);
      if !p.handoff.consumer.Exited? {
        forall k: nat | Reads(moves, k)
          ensures k !in q.reading
        {
          var i :| 0 <= i < |moves| && moves[i].CompleteRead? && moves[i].request == k;
          if i > 0 {
            assert moves[1..][i - 1] == moves[i];
          }
        }
      }
    }
  }

  /** Any fair run ends: all requests have been dispatched and all reads are complete, or
      a handler has ended the process. */
  lemma FairProcessEnds(reqs: seq<Callback>, worlds: Worlds, rounds: seq<seq<Move>>, atomic: bool)
    requires FairRounds(reqs, rounds, atomic) && |rounds| > WorkFor(reqs)
    ensures
      var p := Proceed(reqs, worlds, START, Flatten(rounds));
      && (atomic ==> !p.handoff.intruded)
      && (!p.handoff.intruded ==> Final(reqs, p.handoff) && (p.handoff.consumer.Exited? || p.reading == {}))
  {
    hide Proceed, Step, Ended, FairRound, Fine;
    var front, last := rounds[..|rounds| - 1], rounds[|rounds| - 1];
    assert Measure(reqs, INITIAL_HANDOFF) == WorkFor(reqs);
    RoundsEnd(reqs, worlds, START, front, atomic);
    var p := Proceed(reqs, worlds, START, Flatten(front));
    AlwaysFine(reqs, worlds, Flatten(front));
    assert rounds == front + [last];
    FlattenSnoc(front, last);
    ProceedConcat(reqs, worlds, START, Flatten(front), last);
    ReadsComplete(reqs, worlds, p, last);
    var q := Proceed(reqs, worlds, p, last);
    if !q.handoff.intruded {
      EndedFinal(reqs, worlds, Flatten(front));
      LastRoundReads(reqs, last, atomic);
      if !q.handoff.consumer.Exited? {
        assert q.reading == {};
      }
    }
  }

  lemma EndedFinal(reqs: seq<Callback>, worlds: Worlds, moves: seq<Move>)
    requires Fine(reqs, worlds, moves)
    requires
      var p := Proceed(reqs, worlds, START, moves);
      Ended(reqs, p.handoff) && !p.handoff.intruded
    ensures
      var p := Proceed(reqs, worlds, START, moves);
      Final(reqs, p.handoff) && forall k :: k in p.reading ==> k < |reqs|
  {
    hide Inv, OutcomeOf, TreeAt, Proceed, RepliesTo, ReadReply;
    AccountedInv(reqs, worlds, Proceed(reqs, worlds, START, moves), moves);
    NotFaulty(reqs, Proceed(reqs, worlds, START, moves).handoff);
  }

  lemma LastRoundReads(reqs: seq<Callback>, round: seq<Move>, atomic: bool)
    requires FairRound(reqs, round, atomic)
    ensures forall k: nat :: k < |reqs| ==> Reads(round, k)
  {
    hide Moves, Reads;
  }

  /** From the kernel's request to its replies: in every fair run with an atomic take, and
      in every fair run with split loads in which no store intrudes, every request is
      answered rightly. */
  lemma EveryRequestAnswered(reqs: seq<Callback>, worlds: Worlds, rounds: seq<seq<Move>>, atomic: bool, k: nat)
    requires FairRounds(reqs, rounds, atomic) && |rounds| > WorkFor(reqs) && k < |reqs|
    ensures
      var p := Proceed(reqs, worlds, START, Flatten(rounds));
      && (atomic ==> !p.handoff.intruded)
      && (p.handoff.intruded || AnsweredRightly(reqs, worlds, Flatten(rounds), k))
  {
    hide Proceed, AnsweredRightly, FairRounds;
    FairProcessEnds(reqs, worlds, rounds, atomic);
    if !Proceed(reqs, worlds, START, Flatten(rounds)).handoff.intruded {
      AnsweredOnceOverRuns(reqs, worlds, Flatten(rounds), k);
    }
  }

  /** If no handler ever ends the process, every fair run with an atomic take dispatches all
      requests and completes all reads; every request gets exactly its handler's replies,
      or, if it is a read, exactly the bytes that have completed it; and that is one reply
      exactly for the answerable ones. */
  lemma QuietSessionAnswered(reqs: seq<Callback>, worlds: Worlds, rounds: seq<seq<Move>>, k: nat)
    requires FairRounds(reqs, rounds, true) && |rounds| > WorkFor(reqs) && k < |reqs|
    requires Reached(reqs, worlds, |reqs|)
    ensures
      var p := Proceed(reqs, worlds, START, Flatten(rounds));
      var o, replies := OutcomeOf(reqs, worlds, k), RepliesTo(p.answers, k);
      && p.reading == {} && Calls(p.handoff.log) == reqs
      && (if o.reading then exists i :: (
            && 0 <= i < |Flatten(rounds)| && Flatten(rounds)[i].CompleteRead? && Flatten(rounds)[i].request == k
            && replies == [Buf(Flatten(rounds)[i].bytes)])
          else replies == o.sent)
      && (AwaitsReply(reqs[k]) ==>
        (|replies| == 1 <==> Answerable(reqs[k], TreeAt(reqs, worlds, k), worlds(k))))
  {
    hide Proceed, Answerable, TreeAt, FairRounds, Ends, Fine, RepliesTo, ReadReply, OutcomeOf;
    var moves := Flatten(rounds);
    FairProcessEnds(reqs, worlds, rounds, true);
    AlwaysFine(reqs, worlds, moves);
    NoExit(reqs, worlds, moves);
    AnsweredOnceOverRuns(reqs, worlds, moves, k);
    AttemptsOf(reqs, worlds, k);
    OnlyReadsReadReply(reqs, worlds, moves, k);
    if OutcomeOf(reqs, worlds, k).reading {
      ReadReplyIs(reqs, worlds, moves, k);
    }
  }

  lemma OnlyReadsReadReply(reqs: seq<Callback>, worlds: Worlds, moves: seq<Move>, k: nat)
    requires k < |reqs| && !Proceed(reqs, worlds, START, moves).handoff.intruded
    ensures ReadReply(reqs, worlds, moves, k) != [] ==> OutcomeOf(reqs, worlds, k).reading
  {
    hide Proceed, OutcomeOf, TreeAt, Inv, RepliesTo, ReadReply;
    AlwaysFine(reqs, worlds, moves);
  }

  lemma NoExit(reqs: seq<Callback>, worlds: Worlds, moves: seq<Move>)
    requires Fine(reqs, worlds, moves) && Reached(reqs, worlds, |reqs|)
    requires
      var p := Proceed(reqs, worlds, START, moves);
      !p.handoff.intruded && Final(reqs, p.handoff)
    ensures
      var p := Proceed(reqs, worlds, START, moves);
      !p.handoff.consumer.Exited? && Calls(p.handoff.log) == reqs
  {
    hide Ends, OutcomeOf, TreeAt, Inv, Proceed, RepliesTo, ReadReply;
    var p := Proceed(reqs, worlds, START, moves);
    if p.handoff.consumer.Exited? {
      FatalIff(reqs, worlds, |p.handoff.log| - 1);
      assert false;
    }
    LogOfInv(reqs, p.handoff);
    DeliveredAtEnd(reqs, worlds, p, moves);
  }
}
