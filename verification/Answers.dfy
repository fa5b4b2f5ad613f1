/** What one request gets for an answer: how often, with which inode, and what it leaves
    in the table. */
module Answers {
  import opened Numbers
  import opened Marshalling
  import opened PathHash
  import opened PathIndex
  import opened Dirents
  import opened Replies
  import opened Handlers
  import opened Listings

  /** The replies a handler sends, now or when its read completes. */
  function Attempts(o: Outcome): nat { |o.sent| + (if o.reading then 1 else 0) }

  /** A name joined to the path of its parent directory. */
  function Joined(parent: U64, name: Text, t: Tree, w: World): Option<Text> {
    w.join(At(t, Key(parent)), name)
  }

  /** The path a callback names for creation or removal. */
  function NamedPath(cb: Callback, t: Tree, w: World): Option<Text> {
    match cb
    case Lookup(_, parent, name) => Joined(parent, name, t, w)
    case MkDir(_, parent, name, _) => Joined(parent, name, t, w)
    case Unlink(_, parent, name) => Joined(parent, name, t, w)
    case RmDir(_, parent, name) => Joined(parent, name, t, w)
    case SymLink(_, _, parent, name) => Joined(parent, name, t, w)
    case Create(_, parent, name, _, _) => Joined(parent, name, t, w)
    case Rename(_, _, _, newparent, newname) => Joined(newparent, newname, t, w)
    case Link(_, _, newparent, newname) => Joined(newparent, newname, t, w)
    case _ => None
  }

  // ---- Which handlers end the process ----

  /** The changing call raises, or it succeeds and the stat after it raises. */
  predicate MakingRaises(result: Sys, stat: Option<U32>) {
    result.Raised? || (!result.truthy && stat.None?)
  }

  /** Whether a call outside any try block raises (listings apart). */
  predicate CallRaises(cb: Callback, t: Tree, w: World) {
    var p := NamedPath(cb, t, w);
    match cb
    case Lookup(_, _, _) => p.None?
    case SetAttr(_, ino, attr, toSet, _) =>
      var of := At(t, Key(ino));
      MakingRaises(w.act(ChModSync(of, AttrsToSet(toSet, attr))), w.lstat(of))
    case ReadLink(_, ino) => w.readlink(At(t, Key(ino))).None?
    case MkDir(_, _, _, mode) => p.None? || MakingRaises(w.act(MkDirSync(p.value, ToInt32(mode))), w.stat(p))
    case Unlink(_, _, _) => p.None? || w.act(UnlinkSync(p.value)).Raised?
    case RmDir(_, _, _) => p.None? || w.rmdir(p.value).Refused?
    case SymLink(_, link, _, _) => p.None? || MakingRaises(w.act(SymLinkSync(link, p.value)), w.lstat(p))
    case Rename(_, parent, name, _, _) =>
      var from := Joined(parent, name, t, w);
      from.None? || p.None? || w.act(RenameSync(from.value, p.value)).Raised?
    case Link(_, ino, _, _) => p.None? || MakingRaises(w.act(LinkSync(At(t, Key(ino)), p.value)), w.stat(p))
    case Open(_, ino, _) => w.open(At(t, Key(ino)), "a+").OpenRaised? && w.open(At(t, Key(ino)), "r").OpenRaised?
    case Read(_, _, size, off, fi) => w.readRaises(FileInfo(fi), ToInt32(size), ToInt32(off))
    case Write(_, ino, buf, size, off, fi) =>
      w.write(At(t, Key(ino)), JsBuffer(buf, size), ToInt32(off), FileInfo(fi)).None?
    case Create(_, _, _, mode, _) =>
      || p.None?
      || w.create(p.value, ToInt32(mode)).OpenRaised?
      || (!w.create(p.value, ToInt32(mode)).notANumber && w.stat(p).None?)
    case _ => false
  }

  predicate ListingEnds(dir: Option<Text>, size: U64, offset: int, w: World) {
    || w.readdir(dir).None?
    || (offset + 1 < |Names(dir, w)| && PassedCount(dir, Names(dir, w), size, w) < |Names(dir, w)|)
  }

  /** The handler of a callback ends the process. */
  predicate Ends(cb: Callback, t: Tree, w: World) {
    || cb.SetXAttr? || cb.BMap?
    || (cb.GetXAttr? && ToDouble(cb.size) >= 0x8000_0000)
    || (cb.ReadDir? && ListingEnds(At(t, Key(cb.ino)), ToWord(ToInt32(cb.size)), ToInt32(cb.off), w))
    || CallRaises(cb, t, w)
  }

  lemma NamesEndIff(cb: Callback, t: Tree, w: World)
    requires FamilyOf(cb).Naming? || FamilyOf(cb).Linking?
    ensures Served(cb, t, w).fatal <==> Ends(cb, t, w)
  {
    hide ToDouble, ToInt32, InodeOf, ObjectToStat, At;
  }

  lemma FilesEndIff(cb: Callback, t: Tree, w: World)
    requires FamilyOf(cb).FileIo? || FamilyOf(cb).Metadata?
    ensures Served(cb, t, w).fatal <==> Ends(cb, t, w)
  {
    hide ToDouble, ToInt32, ToWord, ObjectToStat, At, PassedCount, StoredCount, Rejections, Accepted, SerializeAll,
      Listing, ListingEvents;
  }

  /** The exact condition under which a handler ends the process. */
  lemma EndsIff(cb: Callback, t: Tree, w: World)
    ensures Handle(cb, t, w).fatal <==> Ends(cb, t, w)
  {
    hide Handle, Served, Ends;
    HandleIs(cb, t, w);
    match FamilyOf(cb)
    case Naming | Linking => NamesEndIff(cb, t, w);
    case FileIo | Metadata => FilesEndIff(cb, t, w);
  }

  // ---- How often a request is answered ----

  predicate AwaitsReply(cb: Callback) { !cb.Init? && !cb.Destroy? }

  /** A listing is answered once when it starts past the end; or when nothing ends the
      process and all records fit; or when it breaks off after exactly one rejected entry. */
  predicate ListingAnswerable(dir: Option<Text>, size: U64, offset: int, w: World) {
    w.readdir(dir).Some? &&
    var names := Names(dir, w);
    var n := PassedCount(dir, names, size, w);
    || |names| <= offset + 1
    || (n == |names| && FitsWhole(dir, size, w))
    || (n < |names| && Rejections(Listing(dir, names[..n], offset, w), size) == 1)
  }

  predicate Answerable(cb: Callback, t: Tree, w: World) {
    if cb.ReadDir? then ListingAnswerable(At(t, Key(cb.ino)), ToWord(ToInt32(cb.size)), ToInt32(cb.off), w)
    else !Ends(cb, t, w)
  }

  lemma ListingAnsweredIff(dir: Option<Text>, size: U64, offset: int, w: World)
    ensures Attempts(ListOutcome(dir, size, offset, w)) == 1 <==> ListingAnswerable(dir, size, offset, w)
  {
    hide PassedCount, StoredCount, Accepted, SerializeAll, Listing, ListingEvents;
    var names := Names(dir, w);
    if w.readdir(dir).Some? && |names| > offset + 1 && PassedCount(dir, names, size, w) == |names| {
      assert names[..|names|] == names;
      SizeIgnoresOffset(dir, names, offset, 0, w);
      AllAcceptedIff(Listing(dir, names, offset, w), size);
    }
  }

  lemma NamesAnswered(cb: Callback, t: Tree, w: World)
    requires FamilyOf(cb).Naming? || FamilyOf(cb).Linking?
    ensures Attempts(Served(cb, t, w)) == if Served(cb, t, w).fatal then 0 else 1
  {
    hide ToDouble, ToInt32, InodeOf, ObjectToStat, At;
  }

  lemma FilesAnswered(cb: Callback, t: Tree, w: World)
    requires !cb.ReadDir? && (FamilyOf(cb).FileIo? || FamilyOf(cb).Metadata?)
    ensures Attempts(Served(cb, t, w)) == if !AwaitsReply(cb) || Served(cb, t, w).fatal then 0 else 1
  {
    hide ToDouble, ToInt32, ToWord, ObjectToStat, At, ListOutcome;
  }

  /** Only a listing can send more than one reply; any other handler sends one, unless it
      ends the process. */
  lemma OneUnlessListing(cb: Callback, t: Tree, w: World)
    requires !cb.ReadDir?
    ensures Attempts(Handle(cb, t, w)) == if !AwaitsReply(cb) || Handle(cb, t, w).fatal then 0 else 1
  {
    hide Handle, Served;
    HandleIs(cb, t, w);
    match FamilyOf(cb)
    case Naming | Linking => NamesAnswered(cb, t, w);
    case FileIo | Metadata => FilesAnswered(cb, t, w);
  }

  /** The exact condition under which a handler answers its request once. */
  lemma AnsweredOnceIff(cb: Callback, t: Tree, w: World)
    requires AwaitsReply(cb)
    ensures Attempts(Handle(cb, t, w)) == 1 <==> Answerable(cb, t, w)
  {
    hide Handle, Ends, ListOutcome, ListingAnswerable;
    if cb.ReadDir? {
      HandleIs(cb, t, w);
      ListingAnsweredIff(At(t, Key(cb.ino)), ToWord(ToInt32(cb.size)), ToInt32(cb.off), w);
    } else {
      OneUnlessListing(cb, t, w);
      EndsIff(cb, t, w);
    }
  }

  // ---- Inodes in replies ----

  /** The attributes in a reply name the inode they belong to: the one in the entry, or the
      one asked for. */
  predicate Carries(m: Msg, asked: int) {
    match m
    case Entry(inode, stat) => stat.ino == inode
    case Created(inode, stat) => stat.ino == inode
    case Attr(stat) => stat.ino == asked
    case _ => true
  }

  /** setattr and lookup reply stats without an inode property, which convert to 0. */
  predicate Misreports(cb: Callback, t: Tree, w: World) {
    match cb
    case SetAttr(_, ino, attr, toSet, _) =>
      var of := At(t, Key(ino));
      Key(ino) != 0 && w.act(ChModSync(of, AttrsToSet(toSet, attr))) == Returned(false) && w.lstat(of).Some?
    case Lookup(_, _, _) =>
      var p := NamedPath(cb, t, w);
      p.Some? && w.lstat(p).Some? && InodeOf(p.value) != 0
    case GetAttr(_, ino, _) => w.lstat(At(t, Key(ino))).Some? && Key(ino) == 0x1_0000_0000_0000_0000
    case _ => false
  }

  function Asked(cb: Callback): int {
    match cb
    case GetAttr(_, ino, _) => Key(ino)
    case SetAttr(_, ino, _, _, _) => Key(ino)
    case _ => 0
  }

  lemma NamesCarryIff(cb: Callback, t: Tree, w: World)
    requires FamilyOf(cb).Naming? || FamilyOf(cb).Linking?
    ensures (forall m :: m in Served(cb, t, w).sent ==> Carries(m, Asked(cb))) <==> !Misreports(cb, t, w)
  {
    hide ToDouble, ToInt32, InodeOf, At;
    var p := NamedPath(cb, t, w);
    if p.Some? {
      SmallInode(p.value);
    }
    assert forall m :: m in Served(cb, t, w).sent ==> m == Served(cb, t, w).sent[0];
    assert Served(cb, t, w).sent != [] ==> Served(cb, t, w).sent[0] in Served(cb, t, w).sent;
  }

  lemma OthersCarryIff(cb: Callback, t: Tree, w: World)
    requires !cb.ReadDir? && (FamilyOf(cb).FileIo? || FamilyOf(cb).Metadata?)
    ensures (forall m :: m in Served(cb, t, w).sent ==> Carries(m, Asked(cb))) <==> !Misreports(cb, t, w)
  {
    hide ToInt32, At, ListOutcome, ToDouble;
    if cb.GetAttr? {
      KeyBound(cb.ino);
    }
    assert Served(cb, t, w).sent != [] ==> Served(cb, t, w).sent[0] in Served(cb, t, w).sent;
  }

  lemma GapDivides(g: nat)
    requires g in GAPS
    ensures 0x1_0000_0000_0000_0000 / g * g == 0x1_0000_0000_0000_0000
  {
  }

  lemma RoundUp(n: U64, g: nat, c: nat)
    requires g > 0 && c * g == 0x1_0000_0000_0000_0000
    ensures n - n % g + g <= 0x1_0000_0000_0000_0000
  {
    DivMod(n, g);
    Distribute(n / g, g);
    Less(n / g, c, g);
    Monotone(n / g + 1, c, g);
  }

  lemma Distribute(q: nat, g: nat)
    ensures (q + 1) * g == q * g + g
  {
  }

  lemma Monotone(q: nat, c: nat, g: nat)
    requires q <= c
    ensures q * g <= c * g
  {
  }

  lemma Less(q: nat, c: nat, g: nat)
    requires q * g < c * g
    ensures q < c
  {
  }

  /** An inode number never rounds beyond 2^64. */
  lemma KeyBound(n: U64)
    ensures Key(n) <= 0x1_0000_0000_0000_0000
  {
    hide Gap;
    var g := Gap(n, 1);
    GapFits(n, 1);
    GapDivides(g);
    RoundUp(n, g, 0x1_0000_0000_0000_0000 / g);
  }

  /** The exact condition under which every reply reports the inode it belongs to. */
  lemma InodeCarriedIff(cb: Callback, t: Tree, w: World)
    requires !cb.ReadDir?
    ensures (forall m :: m in Handle(cb, t, w).sent ==> Carries(m, Asked(cb))) <==> !Misreports(cb, t, w)
  {
    hide Handle, Served, Misreports, Carries;
    HandleIs(cb, t, w);
    match FamilyOf(cb)
    case Naming | Linking => NamesCarryIff(cb, t, w);
    case FileIo | Metadata => OthersCarryIff(cb, t, w);
  }

  /** A world in which everything succeeds; `removes` is what becomes of an rmdir. */
  function Quiet(removes: bool): World {
    World(
      (dir: Option<Text>, name: Text) => Some(name),
      (name: Text) => [],
      (path: Option<Text>) => Some(0x41ff),
      (path: Option<Text>) => Some(0x41ff),
      (dir: Option<Text>) => Some([]),
      (size: U64) => true,
      (call: SysCall) => Returned(false),
      (path: Text) => Started(removes),
      (path: Option<Text>, flags: string) => Fd(false),
      (path: Text, mode: int) => Fd(false),
      (path: Option<Text>) => Some([]),
      (fi: JsValue, size: int, offset: int) => false,
      (path: Option<Text>, data: JsValue, offset: int, fi: JsValue) => Some(0))
  }

  /** setattr on the root, inode 1, succeeds and reports inode 0. */
  lemma SetAttrReportsZero()
    ensures Handle(Callback.SetAttr(0, 1, 0, 0, 0), INITIAL, Quiet(true)).sent == [Attr(StatBuf(0, 0x41ff))]
    ensures !Carries(Attr(StatBuf(0, 0x41ff)), 1)
  {
    hide Handle;
    HandleIs(Callback.SetAttr(0, 1, 0, 0, 0), INITIAL, Quiet(true));
  }

  /** A lookup that finds "/tmp/qwsdxcq" reports inode 8 in the entry and 0 in its
      attributes. */
  lemma LookupReportsZero()
    ensures
      Handle(Callback.Lookup(0, 1, PATH_PLUS_8), INITIAL, Quiet(true)).sent == [Entry(8, StatBuf(0, 0x41ff))]
  {
    hide Handle, InodeOf;
    HandleIs(Callback.Lookup(0, 1, PATH_PLUS_8), INITIAL, Quiet(true));
    InodeOf8();
  }

  lemma InodeOf8()
    ensures InodeOf(PATH_PLUS_8) == 8
  {
    hide Acc;
    SignCollision();
  }

  // ---- Removals ----

  /** Whether the file system removes what the callback names, now or later. */
  predicate Gone(cb: Callback, t: Tree, w: World) {
    var p := NamedPath(cb, t, w);
    p.Some? && if cb.RmDir? then w.rmdir(p.value) == Started(true) else w.act(UnlinkSync(p.value)) == Returned(false)
  }

  /** Success is replied, and the path dropped, exactly when it is removed. */
  predicate RemovalAgrees(cb: Callback, t: Tree, w: World) {
    var p, o := NamedPath(cb, t, w), Handle(cb, t, w);
    && (Err(0) in o.sent <==> Gone(cb, t, w))
    && ((exists e :: e in o.events && e.Drop?) <==> Gone(cb, t, w))
  }

  /** unlink always agrees with the file system; rmdir does if and only if the deferred
      removal does not fail. */
  lemma RemovalAgreesIff(cb: Callback, t: Tree, w: World)
    requires cb.Unlink? || cb.RmDir?
    ensures
      var p := NamedPath(cb, t, w);
      RemovalAgrees(cb, t, w) <==> !(cb.RmDir? && p.Some? && w.rmdir(p.value) == Started(false))
  {
    hide Handle, ToDouble, At;
    HandleIs(cb, t, w);
    var p, o := NamedPath(cb, t, w), Handle(cb, t, w);
    if p.Some? && o.events != [] {
      assert o.events == [Drop(p.value)] && Drop(p.value) in o.events;
    }
  }

  /** An rmdir of a directory that is not empty: success is replied, the path is dropped,
      and the directory is still there. */
  lemma RmDirForgetsLiveDirectory()
    ensures
      var cb, w := Callback.RmDir(0, 1, ROOT), Quiet(false);
      && Handle(cb, INITIAL, w) == Outcome([Drop(ROOT)], [Err(0)], false, false)
      && !Gone(cb, INITIAL, w) && !RemovalAgrees(cb, INITIAL, w)
  {
    hide Handle;
    HandleIs(Callback.RmDir(0, 1, ROOT), INITIAL, Quiet(false));
    RemovalAgreesIff(Callback.RmDir(0, 1, ROOT), INITIAL, Quiet(false));
  }

  // ---- The table after one handler ----

  /** Every inode a handler hands out in an entry resolves to the path it was handed out
      for, collisions or not, as soon as the handler returns. */
  lemma HandedOutInodeResolves(cb: Callback, t: Tree, w: World, m: Msg)
    requires !cb.ReadDir? && m in Handle(cb, t, w).sent && (m.Entry? || m.Created?)
    ensures NamedPath(cb, t, w).Some? && m.inode == InodeOf(NamedPath(cb, t, w).value)
    ensures At(ApplyAll(t, Handle(cb, t, w).events), m.inode) == NamedPath(cb, t, w)
  {
    hide Handle, Served, ApplyAll, InodeOf;
    HandleIs(cb, t, w);
    if FamilyOf(cb).FileIo? || FamilyOf(cb).Metadata? {
      OthersSendNoEntry(cb, t, w, m);
    }
    EntryStores(cb, t, w, m);
    var p := NamedPath(cb, t, w).value;
    ApplyTwo(t, Store(p), Store(p));
  }

  lemma OthersSendNoEntry(cb: Callback, t: Tree, w: World, m: Msg)
    requires !cb.ReadDir? && (FamilyOf(cb).FileIo? || FamilyOf(cb).Metadata?) && m in Served(cb, t, w).sent
    ensures !m.Entry? && !m.Created?
  {
    hide ToDouble, ToInt32, ToWord, ObjectToStat, At, ListOutcome;
  }

  lemma EntryStores(cb: Callback, t: Tree, w: World, m: Msg)
    requires (FamilyOf(cb).Naming? || FamilyOf(cb).Linking?) && m in Served(cb, t, w).sent && (m.Entry? || m.Created?)
    ensures
      var p := NamedPath(cb, t, w);
      p.Some? && m.inode == InodeOf(p.value) && Served(cb, t, w).events == [Store(p.value)]
  {
    hide ToDouble, ToInt32, InodeOf, ObjectToStat, At;
  }

  /** A getattr that follows on the inode of an entry stats the path the entry was made
      for, whatever the hash, and answers with that inode. */
  lemma AttrAfterEntry(cb: Callback, t: Tree, w: World, m: Msg, req: U64, fi: nat, later: World)
    requires !cb.ReadDir? && m in Handle(cb, t, w).sent && m.Entry?
    ensures m.inode < TWO_53
    ensures
      var after := ApplyAll(t, Handle(cb, t, w).events);
      Handle(Callback.GetAttr(req, m.inode, fi), after, later).sent ==
        match later.lstat(NamedPath(cb, t, w))
        case None => [Err(ENOENT)]
        case Some(mode) => [Attr(StatBuf(m.inode, mode))]
  {
    hide Handle, ToDouble, NamedPath, InodeOf, ApplyAll, At;
    HandedOutInodeResolves(cb, t, w, m);
    SmallInode(NamedPath(cb, t, w).value);
    ExactDouble(m.inode);
    HandleIs(Callback.GetAttr(req, m.inode, fi), ApplyAll(t, Handle(cb, t, w).events), later);
  }

  /** A rename or removal that reports success has updated the table: the new path
      resolves, the removed one no longer does. */
  lemma SuccessUpdatesTable(cb: Callback, t: Tree, w: World)
    requires cb.Rename? || cb.Unlink? || cb.RmDir?
    requires Err(0) in Handle(cb, t, w).sent
    ensures NamedPath(cb, t, w).Some?
    ensures At(ApplyAll(t, Handle(cb, t, w).events), InodeOf(NamedPath(cb, t, w).value)) ==
      if cb.Rename? then NamedPath(cb, t, w) else None
  {
    hide Handle, ApplyAll, InodeOf, ToDouble;
    HandleIs(cb, t, w);
    var p := NamedPath(cb, t, w);
    if p.Some? {
      ApplyTwo(t, Store(p.value), Store(p.value));
      ApplyTwo(t, Drop(p.value), Drop(p.value));
    }
  }

  predicate Failed(o: Outcome) { o.fatal || Err(EIO) in o.sent || Err(ENOENT) in o.sent }

  lemma FailureSendsNoEvent(cb: Callback, t: Tree, w: World)
    requires FamilyOf(cb).Naming? || FamilyOf(cb).Linking?
    requires Failed(Served(cb, t, w))
    ensures Served(cb, t, w).events == []
  {
    hide ToDouble, ToInt32, InodeOf, ObjectToStat, At;
  }

  lemma FilesKeepTable(cb: Callback, t: Tree, w: World)
    requires FamilyOf(cb).FileIo? || FamilyOf(cb).Metadata?
    requires !cb.ReadDir?
    ensures Served(cb, t, w).events == []
  {
    hide ToDouble, ToInt32, ToWord, ObjectToStat, At, ListOutcome;
  }

  /** A handler that ends the process or reports an error leaves the table alone (a
      listing that breaks off keeps the entries stored before). */
  lemma FailureKeepsTable(cb: Callback, t: Tree, w: World)
    requires !cb.ReadDir? && Failed(Handle(cb, t, w))
    ensures ApplyAll(t, Handle(cb, t, w).events) == t
  {
    hide Handle, Served, Failed;
    HandleIs(cb, t, w);
    match FamilyOf(cb)
    case Naming | Linking => FailureSendsNoEvent(cb, t, w);
    case FileIo | Metadata => FilesKeepTable(cb, t, w);
  }

  /** Whether a callback is an unlink or rmdir that names path p. */
  predicate Removes(cb: Callback, t: Tree, w: World, p: Text) {
    (cb.Unlink? || cb.RmDir?) && NamedPath(cb, t, w) == Some(p)
  }

  lemma OnlyRemovalDrops(cb: Callback, t: Tree, w: World, p: Text)
    requires Drop(p) in Handle(cb, t, w).events
    ensures Removes(cb, t, w, p)
  {
    hide Handle, Served, Removes;
    HandleIs(cb, t, w);
    match FamilyOf(cb)
    case Naming | Linking => OnlyRemovalNames(cb, t, w, p);
    case FileIo | Metadata =>
      if cb.ReadDir? {
        ListDropsNothing(cb, t, w, p);
      } else {
        FilesKeepTable(cb, t, w);
      }
  }

  lemma OnlyRemovalNames(cb: Callback, t: Tree, w: World, p: Text)
    requires FamilyOf(cb).Naming? || FamilyOf(cb).Linking?
    requires Drop(p) in Served(cb, t, w).events
    ensures Removes(cb, t, w, p)
  {
    hide ToDouble, ToInt32, InodeOf, ObjectToStat, At;
  }

  lemma ListDropsNothing(cb: Callback, t: Tree, w: World, p: Text)
    requires cb.ReadDir?
    ensures Drop(p) !in Served(cb, t, w).events
  {
    hide ToDouble, ToInt32, ToWord, PassedCount, StoredCount, Rejections, Accepted, SerializeAll, Listing;
  }
}
