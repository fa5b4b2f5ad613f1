/** The NodeFS object: handlers that update the shared table and call the reply. */
module NodeFileSystem {
  import opened Numbers
  import opened Marshalling
  import opened PathHash
  import opened PathIndex
  import opened Dirents
  import opened Replies
  import opened Handlers

  /** The updates made, the replies sent and the way a handler ended, as its outcome says. */
  ghost predicate Did(o: Outcome, before: seq<Event>, after: seq<Event>, sent: seq<Msg>, sent': seq<Msg>, fatal: bool, reading: bool) {
    after == before + o.events && sent' == sent + o.sent && fatal == o.fatal && reading == o.reading
  }

  /** The handler has sent one reply, which passes the test. */
  predicate Sent(before: seq<Msg>, after: seq<Msg>, test: Msg -> bool) {
    |after| == |before| + 1 && test(after[|before|])
  }

  /** An entry for path p. */
  function EntryFor(p: Option<Text>): Msg -> bool {
    (m: Msg) => p.Some? && (m.Entry? || m.Created?) && m.inode == InodeOf(p.value)
  }

  function Success(p: Option<Text>): Msg -> bool {
    (m: Msg) => p.Some? && m == Err(0)
  }

  /** Known paths with p, or without it, if there is one. */
  function With(known: set<Text>, p: Option<Text>): set<Text> {
    if p.Some? then known + {p.value} else known
  }

  function Without(known: set<Text>, p: Option<Text>): set<Text> {
    if p.Some? then known - {p.value} else known
  }

  class NodeFS {
    var tree: Tree
    /** The updates made so far. */
    ghost var history: seq<Event>

    ghost predicate Valid()
      reads this
    {
      tree == ApplyAll(INITIAL, history)
    }

    /** The paths stored and not dropped since. */
    ghost function Paths(): set<Text>
      reads this
    {
      Known(history)
    }

    constructor ()
      ensures Valid() && tree == INITIAL && history == []
    {
      tree := INITIAL;
      history := [];
    }

    /** Without any collision the table is an index of the known paths; in any case each
        key is the hash of its path, except key 1 on the root path. */
    lemma Indexed(universe: iset<Text>)
      requires Valid()
      ensures Coherent(tree)
      ensures CollisionFree(universe) && Within(history, universe) ==> Agrees(tree, Paths())
    {
      CoherentAfter(INITIAL, history);
      if CollisionFree(universe) && Within(history, universe) {
        IndexAgreesWithKnownPaths(universe, history);
      }
    }

    /** `self.tree[inode] = path`. */
    method Put(path: Text, inode: nat)
      requires Valid() && inode == InodeOf(path)
      modifies this
      ensures Valid() && history == old(history) + [Store(path)]
      ensures Paths() == old(Paths()) + {path}
    {
      ApplyAllConcat(INITIAL, history, [Store(path)]);
      ApplyTwo(tree, Store(path), Store(path));
      tree := tree[inode := path];
      history := history + [Store(path)];
    }

    /** `delete self.tree[inode]`. */
    method Remove(ghost path: Text, inode: nat)
      requires Valid() && inode == InodeOf(path)
      modifies this
      ensures Valid() && history == old(history) + [Drop(path)]
      ensures Paths() == old(Paths()) - {path}
    {
      ApplyAllConcat(INITIAL, history, [Drop(path)]);
      ApplyTwo(tree, Drop(path), Drop(path));
      tree := tree - {inode};
      history := history + [Drop(path)];
    }

    // ---- Handlers that update the table ----

    method Lookup(parent: int, name: Text, w: World, reply: Reply) returns (fatal: bool)
      requires Valid()
      modifies this, reply`sent
      ensures Valid()
      ensures Did(LookupOutcome(parent, name, old(tree), w), old(history), history, old(reply.sent), reply.sent, fatal, false)
      ensures
        var p := w.join(At(old(tree), parent), name);
        Paths() == With(old(Paths()), if Sent(old(reply.sent), reply.sent, EntryFor(p)) then p else None)
      ensures
        var p := w.join(At(old(tree), parent), name);
        p.Some? ==>
          match w.lstat(p)
          case None => !fatal && reply.sent == old(reply.sent) + [Err(ENOENT)] && history == old(history)
          case Some(mode) =>
            && !fatal && reply.sent == old(reply.sent) + [Entry(InodeOf(p.value), StatBuf(0, mode))]
            && history == old(history) + [Store(p.value)]
    {
      fatal := false;
      var fspath := w.join(At(tree, parent), name);
      if fspath.None? {
        return true;
      }
      var inode := Hash(fspath.value);
      var mode := w.lstat(fspath);
      if mode.None? {
        reply.Send(Err(ENOENT));
        return;
      }
      reply.Send(Entry(inode, ObjectToStat(Stats(mode.value, None))));
      Put(fspath.value, inode);
    }

    method MkDir(parent: int, name: Text, mode: int, w: World, reply: Reply) returns (fatal: bool)
      requires Valid()
      modifies this, reply`sent
      ensures Valid()
      ensures Did(MkDirOutcome(parent, name, mode, old(tree), w), old(history), history, old(reply.sent), reply.sent, fatal, false)
      ensures
        var p := w.join(At(old(tree), parent), name);
        Paths() == With(old(Paths()), if Sent(old(reply.sent), reply.sent, EntryFor(p)) then p else None)
      ensures
        var p := w.join(At(old(tree), parent), name);
        p.Some? && w.act(MkDirSync(p.value, mode)) == Returned(false) && w.stat(p).Some? ==>
          && !fatal && history == old(history) + [Store(p.value)]
          && reply.sent == old(reply.sent) + [Entry(InodeOf(p.value), StatBuf(InodeOf(p.value), w.stat(p).value))]
      ensures
        var p := w.join(At(old(tree), parent), name);
        p.Some? && w.act(MkDirSync(p.value, mode)) == Returned(true) ==>
          !fatal && history == old(history) && reply.sent == old(reply.sent) + [Err(EIO)]
    {
      fatal := false;
      var fspath := w.join(At(tree, parent), name);
      if fspath.None? {
        return true;
      }
      SmallInode(fspath.value);
      var exception := w.act(MkDirSync(fspath.value, mode));
      if exception.Raised? {
        return true;
      }
      var inode := Hash(fspath.value);
      if exception.truthy {
        reply.Send(Err(EIO));
        return;
      }
      var stats := w.stat(fspath);
      if stats.None? {
        return true;
      }
      Put(fspath.value, inode);
      reply.Send(Entry(inode, ObjectToStat(Stats(stats.value, Some(inode)))));
    }

    method Unlink(parent: int, name: Text, w: World, reply: Reply) returns (fatal: bool)
      requires Valid()
      modifies this, reply`sent
      ensures Valid()
      ensures Did(UnlinkOutcome(parent, name, old(tree), w), old(history), history, old(reply.sent), reply.sent, fatal, false)
      ensures
        var p := w.join(At(old(tree), parent), name);
        Paths() == Without(old(Paths()), if Sent(old(reply.sent), reply.sent, Success(p)) then p else None)
    {
      fatal := false;
      var fspath := w.join(At(tree, parent), name);
      if fspath.None? {
        return true;
      }
      var exception := w.act(UnlinkSync(fspath.value));
      if exception.Raised? {
        return true;
      }
      var inode := Hash(fspath.value);
      if exception.truthy {
        reply.Send(Err(EIO));
        return;
      }
      Remove(fspath.value, inode);
      reply.Send(Err(0));
    }

    /** `fs.rmdir` is the asynchronous call: it returns nothing, so that the test of its
        value never holds and nothing waits for its result. */
    method RmDir(parent: int, name: Text, w: World, reply: Reply) returns (fatal: bool)
      requires Valid()
      modifies this, reply`sent
      ensures Valid()
      ensures Did(RmDirOutcome(parent, name, old(tree), w), old(history), history, old(reply.sent), reply.sent, fatal, false)
      ensures
        var p := w.join(At(old(tree), parent), name);
        Paths() == Without(old(Paths()), if Sent(old(reply.sent), reply.sent, Success(p)) then p else None)
    {
      fatal := false;
      var fspath := w.join(At(tree, parent), name);
      if fspath.None? {
        return true;
      }
      if w.rmdir(fspath.value).Refused? {
        return true;
      }
      var inode := Hash(fspath.value);
      Remove(fspath.value, inode);
      reply.Send(Err(0));
    }

    /** The common end of link and symlink, after their call. */
    method Made(dstPath: Text, exception: Sys, stats: Option<U32>, reply: Reply) returns (fatal: bool)
      requires Valid()
      modifies this, reply`sent
      ensures Valid()
      ensures Did(MadeOutcome(dstPath, exception, stats), old(history), history, old(reply.sent), reply.sent, fatal, false)
      ensures Paths() ==
        With(old(Paths()), if Sent(old(reply.sent), reply.sent, EntryFor(Some(dstPath))) then Some(dstPath) else None)
    {
      fatal := false;
      var inode := Hash(dstPath);
      if exception.Raised? {
        return true;
      }
      if exception.truthy {
        reply.Send(Err(EIO));
        return;
      }
      if stats.None? {
        return true;
      }
      Put(dstPath, inode);
      reply.Send(Entry(inode, ObjectToStat(Stats(stats.value, Some(inode)))));
    }

    method Link(inode: int, newParent: int, newName: Text, w: World, reply: Reply) returns (fatal: bool)
      requires Valid()
      modifies this, reply`sent
      ensures Valid()
      ensures Did(LinkOutcome(inode, newParent, newName, old(tree), w), old(history), history, old(reply.sent), reply.sent, fatal, false)
      ensures
        var p := w.join(At(old(tree), newParent), newName);
        Paths() == With(old(Paths()), if Sent(old(reply.sent), reply.sent, EntryFor(p)) then p else None)
      ensures
        var p := w.join(At(old(tree), newParent), newName);
        p.Some? && w.act(LinkSync(At(old(tree), inode), p.value)) == Returned(false) && w.stat(p).Some? ==>
          && !fatal && history == old(history) + [Store(p.value)]
          && reply.sent == old(reply.sent) + [Entry(InodeOf(p.value), StatBuf(InodeOf(p.value), w.stat(p).value))]
      ensures
        var p := w.join(At(old(tree), newParent), newName);
        p.Some? && w.act(LinkSync(At(old(tree), inode), p.value)) == Returned(true) ==>
          !fatal && history == old(history) && reply.sent == old(reply.sent) + [Err(EIO)]
    {
      var srcPath := At(tree, inode);
      var dstPath := w.join(At(tree, newParent), newName);
      if dstPath.None? {
        return true;
      }
      SmallInode(dstPath.value);
      fatal := Made(dstPath.value, w.act(LinkSync(srcPath, dstPath.value)), w.stat(dstPath), reply);
    }

    method SymLink(parent: int, link: Text, name: Text, w: World, reply: Reply) returns (fatal: bool)
      requires Valid()
      modifies this, reply`sent
      ensures Valid()
      ensures Did(SymLinkOutcome(parent, link, name, old(tree), w), old(history), history, old(reply.sent), reply.sent, fatal, false)
      ensures
        var p := w.join(At(old(tree), parent), name);
        Paths() == With(old(Paths()), if Sent(old(reply.sent), reply.sent, EntryFor(p)) then p else None)
      ensures
        var p := w.join(At(old(tree), parent), name);
        p.Some? && w.act(SymLinkSync(link, p.value)) == Returned(false) && w.lstat(p).Some? ==>
          && !fatal && history == old(history) + [Store(p.value)]
          && reply.sent == old(reply.sent) + [Entry(InodeOf(p.value), StatBuf(InodeOf(p.value), w.lstat(p).value))]
      ensures
        var p := w.join(At(old(tree), parent), name);
        p.Some? && w.act(SymLinkSync(link, p.value)) == Returned(true) ==>
          !fatal && history == old(history) && reply.sent == old(reply.sent) + [Err(EIO)]
    {
      var dstPath := w.join(At(tree, parent), name);
      if dstPath.None? {
        return true;
      }
      SmallInode(dstPath.value);
      fatal := Made(dstPath.value, w.act(SymLinkSync(link, dstPath.value)), w.lstat(dstPath), reply);
    }

    method Rename(parent: int, name: Text, newParent: int, newName: Text, w: World, reply: Reply)
        returns (fatal: bool)
      requires Valid()
      modifies this, reply`sent
      ensures Valid()
      ensures Did(RenameOutcome(parent, name, newParent, newName, old(tree), w),
        old(history), history, old(reply.sent), reply.sent, fatal, false)
      ensures
        var p := w.join(At(old(tree), newParent), newName);
        Paths() == With(old(Paths()), if Sent(old(reply.sent), reply.sent, Success(p)) then p else None)
    {
      fatal := false;
      var oldPath := w.join(At(tree, parent), name);
      if oldPath.None? {
        return true;
      }
      var newPath := w.join(At(tree, newParent), newName);
      if newPath.None? {
        return true;
      }
      var newInode := Hash(newPath.value);
      if w.act(RenameSync(oldPath.value, newPath.value)).Raised? {
        return true;
      }
      reply.Send(Err(0));
      Put(newPath.value, newInode);
    }

    method Create(parent: int, name: Text, mode: int, w: World, reply: Reply) returns (fatal: bool)
      requires Valid()
      modifies this, reply`sent
      ensures Valid()
      ensures Did(CreateOutcome(parent, name, mode, old(tree), w), old(history), history, old(reply.sent), reply.sent, fatal, false)
      ensures
        var p := w.join(At(old(tree), parent), name);
        Paths() == With(old(Paths()), if Sent(old(reply.sent), reply.sent, EntryFor(p)) then p else None)
    {
      fatal := false;
      var fspath := w.join(At(tree, parent), name);
      if fspath.None? {
        return true;
      }
      var fd := w.create(fspath.value, mode);
      if fd.OpenRaised? {
        return true;
      }
      var inode := Hash(fspath.value);
      if fd.notANumber {
        reply.Send(Err(EIO));
        return;
      }
      var stats := w.stat(fspath);
      if stats.None? {
        return true;
      }
      Put(fspath.value, inode);
      reply.Send(Created(inode, ObjectToStat(Stats(stats.value, Some(inode)))));
    }

    /** One turn of the listing loop. */
    method ListEntry(dir: Option<Text>, name: Text, requested: U64, offset: int, w: World, reply: Reply)
        returns (fatal: bool)
      requires Valid() && reply.Valid()
      requires reply.dentryBuffer != null ==> reply.dentryBuffer.Length == requested && w.malloc(requested)
      modifies this, reply, reply.dentryBuffer
      ensures Valid() && reply.Valid()
      ensures reply.dentryBuffer != null ==> reply.dentryBuffer.Length == requested && w.malloc(requested)
      ensures reply.dentryBuffer == old(reply.dentryBuffer) || fresh(reply.dentryBuffer)
      ensures fatal <==> !Passes(dir, name, requested, w)
      ensures history ==
        if Readable(dir, name, w) then old(history) + [Store(PathOf(dir, name, w))] else old(history)
      ensures fatal ==> reply.sent == old(reply.sent)
      ensures !fatal ==>
        && reply.kept == Offer(old(reply.kept), DirentOf(dir, name, offset, w), requested)
        && reply.sent == old(reply.sent) + if reply.kept == old(reply.kept) then [Buf([])] else []
    {
      hide ApplyAll, SerializeAll, NewDirent, RecordSize, Known, DirentOf, ObjectToStat, CString;
      NoRecords();
      var entryPath := w.join(dir, name);
      if entryPath.None? {
        return true;
      }
      var mode := w.lstat(entryPath);
      if mode.None? {
        return true;
      }
      var entryInode := Hash(entryPath.value);
      Put(entryPath.value, entryInode);
      DirentIs(dir, name, offset, mode.value, w);
      var stat := Stats(mode.value, Some(entryInode));
      fatal := reply.AddDirEntry(w.utf8(name), requested, stat, ToWord(offset), w.malloc(requested));
    }

    /** The paths of the listed entries become known, up to the entry that ends the
        process, if any. */
    method ReadDir(inode: int, size: int, offset: int, w: World, reply: Reply) returns (fatal: bool)
      requires Valid() && reply.Valid() && reply.dentryBuffer == null
      modifies this, reply
      ensures Valid()
      ensures Did(ListOutcome(At(old(tree), inode), ToWord(size), offset, w),
        old(history), history, old(reply.sent), reply.sent, fatal, false)
      ensures Paths() == old(Paths()) + PathsIn(ListOutcome(At(old(tree), inode), ToWord(size), offset, w).events)
      ensures
        var dir := At(old(tree), inode);
        w.readdir(dir).Some? && offset + 1 < 2 + |w.readdir(dir).value| ==>
          && (fatal <==> AnyEnds(dir, w.readdir(dir).value, ToWord(size), w))
          && |old(history)| <= |history| && StoresFirst(history[|old(history)|..], dir, w.readdir(dir).value, w)
          && (!fatal ==> |history| == |old(history)| + 2 + |w.readdir(dir).value|)
    {
      hide Listed, AnyEnds, StoresFirst, Passes, PassedCount, StoredCount, Readable, PathOf, Listing, ListingEvents, Accepted, Rejections,
        Offer, ApplyAll, SerializeAll, Known, PathsIn, DirentOf;
      var fspath := At(tree, inode);
      ListStoresOnly(history, fspath, ToWord(size), offset, w);
      ListEvents(fspath, ToWord(size), offset, w);
      var listed := w.readdir(fspath);
      if listed.None? {
        return true;
      }
      fatal := false;
      var entries := Entries(listed.value);
      EntriesAt(listed.value);
      if |entries| <= offset + 1 {
        reply.Buffer([]);
        return;
      }
      var requested := ToWord(size);
      var i := 0;
      StartListing(fspath, entries, offset, requested, w, history, reply.sent);
      NoRecords();
      while i < |entries|
        invariant 0 <= i <= |entries|
        invariant Valid() && reply.Valid()
        invariant reply.dentryBuffer != null ==>
          fresh(reply.dentryBuffer) && reply.dentryBuffer.Length == requested && w.malloc(requested)
        invariant Listed(fspath, entries, i, offset, requested, w, old(history), history, old(reply.sent), reply.sent, reply.kept)
      {
        ghost var before, sent, kept := history, reply.sent, reply.kept;
        fatal := ListEntry(fspath, entries[i], requested, offset + i, w, reply);
        ListedStep(fspath, listed.value, i, offset, requested, w, old(history), before, history,
          old(reply.sent), sent, reply.sent, kept, reply.kept);
        if fatal {
          return;
        }
        i := i + 1;
      }
      ListedAll(fspath, listed.value, offset, requested, w, old(history), history, old(reply.sent), reply.sent, reply.kept);
      reply.Buffer([]);
    }

    // ---- Handlers that leave the table alone ----

    method GetAttr(inode: int, w: World, reply: Reply)
      modifies reply`sent
      ensures Did(GetAttrOutcome(inode, tree, w), history, history, old(reply.sent), reply.sent, false, false)
    {
      var mode := w.lstat(At(tree, inode));
      if mode.None? {
        reply.Send(Err(ENOENT));
      } else {
        reply.Send(Attr(ObjectToStat(Stats(mode.value, Some(inode)))));
      }
    }

    method SetAttr(inode: int, attrs: JsValue, w: World, reply: Reply) returns (fatal: bool)
      modifies reply`sent
      ensures Did(SetAttrOutcome(inode, attrs, tree, w), history, history, old(reply.sent), reply.sent, fatal, false)
    {
      fatal := false;
      var fspath := At(tree, inode);
      var exception := w.act(ChModSync(fspath, attrs));
      if exception.Raised? {
        return true;
      }
      if exception.truthy {
        reply.Send(Err(EIO));
        return;
      }
      var mode := w.lstat(fspath);
      if mode.None? {
        return true;
      }
      reply.Send(Attr(ObjectToStat(Stats(mode.value, None))));
    }

    method Open(inode: int, w: World, reply: Reply) returns (fatal: bool)
      modifies reply`sent
      ensures Did(OpenOutcome(inode, tree, w), history, history, old(reply.sent), reply.sent, fatal, false)
    {
      fatal := false;
      var fspath := At(tree, inode);
      var fd := w.open(fspath, "a+");
      if fd.OpenRaised? {
        fd := w.open(fspath, "r");
        if fd.OpenRaised? {
          return true;
        }
      }
      reply.Send(if fd.notANumber then Err(EIO) else Opened);
    }

    /** The handlers that only pass one answer on; None stands for an exception. */
    method Say(m: Option<Msg>, reply: Reply) returns (fatal: bool)
      modifies reply`sent
      ensures Did(if m.None? then FATAL else Answer(m.value), history, history, old(reply.sent), reply.sent, fatal, false)
    {
      fatal := m.None?;
      if m.Some? {
        reply.Send(m.value);
      }
    }

    // ---- As the binding calls them ----

    method ServeNames(op: Op, args: seq<JsValue>, w: World, reply: Reply) returns (fatal: bool)
      requires Valid() && IsNaming(op) && BoundReply(op, args) == ReplyObject
      modifies this, reply`sent
      ensures Valid()
      ensures Did(OnArguments(op, args, old(tree), w), old(history), history, old(reply.sent), reply.sent, fatal, false)
    {
      hide Did, ApplyAll, BoundReply, NumAt, TextAt, Parameter, Known, Sent, EntryFor, Success, With, Without;
      hide LookupOutcome, MkDirOutcome, UnlinkOutcome, RmDirOutcome, SymLinkOutcome, RenameOutcome, LinkOutcome,
        CreateOutcome;
      match op
      case Lookup => fatal := Lookup(NumAt(args, 1), TextAt(args, 2), w, reply);
      case MkDir => fatal := MkDir(NumAt(args, 1), TextAt(args, 2), NumAt(args, 3), w, reply);
      case Unlink => fatal := Unlink(NumAt(args, 1), TextAt(args, 2), w, reply);
      case RmDir => fatal := RmDir(NumAt(args, 1), TextAt(args, 2), w, reply);
      case SymLink => fatal := SymLink(NumAt(args, 1), TextAt(args, 2), TextAt(args, 3), w, reply);
      case Rename => fatal := Rename(NumAt(args, 1), TextAt(args, 2), NumAt(args, 3), TextAt(args, 4), w, reply);
      case Link => fatal := Link(NumAt(args, 1), NumAt(args, 2), TextAt(args, 3), w, reply);
      case Create => fatal := Create(NumAt(args, 1), TextAt(args, 2), NumAt(args, 3), w, reply);
    }

    method ServeOthers(op: Op, args: seq<JsValue>, w: World, reply: Reply) returns (fatal: bool, reading: bool)
      requires !IsNaming(op) && !op.ReadDir?
      requires ExpectsReply(op) ==> BoundReply(op, args) == ReplyObject
      modifies reply`sent
      ensures Did(OnArguments(op, args, tree, w), history, history, old(reply.sent), reply.sent, fatal, reading)
    {
      hide Did, BoundReply, NumAt, TextAt, Parameter;
      hide GetAttrOutcome, SetAttrOutcome, OpenOutcome;
      fatal, reading := false, false;
      Nothing(history, reply.sent);
      match op
      case Init | Destroy | Forget =>
      case GetAttr => GetAttr(NumAt(args, 1), w, reply);
      case SetAttr => fatal := SetAttr(NumAt(args, 1), Parameter(args, 2), w, reply);
      case ReadLink =>
        var target := w.readlink(At(tree, NumAt(args, 1)));
        fatal := Say(if target.None? then None else Some(LinkTarget(target.value)), reply);
      case MkNod => fatal := Say(Some(Err(ENOENT)), reply);
      case Open => fatal := Open(NumAt(args, 1), w, reply);
      case Read =>
        fatal := w.readRaises(Parameter(args, 4), NumAt(args, 2), NumAt(args, 3));
        reading := !fatal;
      case Write =>
        var bytes := w.write(At(tree, NumAt(args, 1)), Parameter(args, 2), NumAt(args, 3), Parameter(args, 4));
        fatal := Say(if bytes.None? then None else Some(Written(bytes.value)), reply);
      case StatFs => fatal := Say(Some(Statistics), reply);
      case OpenDir => fatal := Say(Some(Opened), reply);
      case GetXAttr =>
        var size := NumAt(args, 3);
        fatal := Say(if 0 <= size < 0x8000_0000 then Some(Xattr(size)) else None, reply);
      case BMap => fatal := true;
      case Flush | Release | FSync | ReleaseDir | FSyncDir | SetXAttr | ListXAttr | RemoveXAttr | Access
        | GetLock | SetLock =>
        fatal := Say(Some(Err(0)), reply);
    }

    /** Any handler, called with the binding's arguments and a fresh reply object. */
    method Serve(op: Op, args: seq<JsValue>, w: World, reply: Reply) returns (fatal: bool, reading: bool)
      requires Valid() && reply.Valid() && reply.dentryBuffer == null
      modifies this, reply
      ensures Valid() && Coherent(tree)
      ensures Did(OnArguments(op, args, old(tree), w), old(history), history, old(reply.sent), reply.sent, fatal, reading)
      ensures forall universe :: CollisionFree(universe) && Within(history, universe) ==> Agrees(tree, Paths())
    {
      hide Did, ApplyAll, BoundReply, OnArguments, Coherent, Known, CollisionFree, Within, Agrees;
      reading := false;
      Nothing(history, reply.sent);
      if ExpectsReply(op) && BoundReply(op, args) != ReplyObject {
        WithoutReply(op, args, tree, w);
        fatal := true;
      } else if IsNaming(op) {
        fatal := ServeNames(op, args, w, reply);
      } else if op.ReadDir? {
        ReadDirIs(args, tree, w);
        fatal := ReadDir(NumAt(args, 1), NumAt(args, 2), NumAt(args, 3), w, reply);
      } else {
        fatal, reading := ServeOthers(op, args, w, reply);
      }
      Indexed(iset{});
      forall universe | CollisionFree(universe) && Within(history, universe)
        ensures Agrees(tree, Paths())
      {
        Indexed(universe);
      }
    }
  }

  /** The handlers that name an entry and update the table. */
  predicate IsNaming(op: Op) {
    op.Lookup? || op.MkDir? || op.Unlink? || op.RmDir? || op.SymLink? || op.Rename? || op.Link? || op.Create?
  }

  lemma WithoutReply(op: Op, args: seq<JsValue>, t: Tree, w: World)
    requires ExpectsReply(op) && BoundReply(op, args) != ReplyObject
    ensures OnArguments(op, args, t, w) == FATAL
  {
    hide BoundReply;
  }

  lemma ReadDirIs(args: seq<JsValue>, t: Tree, w: World)
    requires BoundReply(Op.ReadDir, args) == ReplyObject
    ensures OnArguments(Op.ReadDir, args, t, w) == ListOutcome(At(t, NumAt(args, 1)), ToWord(NumAt(args, 2)), NumAt(args, 3), w)
  {
    hide BoundReply, ListOutcome;
  }

  /** An exception before any effect, a handler without effect, a read just started. */
  lemma Nothing(es: seq<Event>, sent: seq<Msg>)
    ensures Did(FATAL, es, es, sent, sent, true, false)
    ensures Did(SILENT, es, es, sent, sent, false, false)
    ensures Did(Outcome([], [], false, true), es, es, sent, sent, false, true)
  {
  }

  // ---- Lemmas for the listing loop ----

  function PathsIn(es: seq<Event>): set<Text> {
    set i | 0 <= i < |es| :: es[i].path
  }

  lemma {:induction false} KnownStores(es: seq<Event>, fs: seq<Event>)
    requires forall i :: 0 <= i < |fs| ==> fs[i].Store?
    ensures Known(es + fs) == Known(es) + PathsIn(fs)
    decreases |fs|
  {
    if fs == [] {
      assert es + fs == es;
    } else {
      var front := fs[..|fs| - 1];
      assert (es + fs)[..|es + fs| - 1] == es + front;
      KnownStores(es, front);
      PathsInLast(fs);
    }
  }

  lemma PathsInLast(fs: seq<Event>)
    requires fs != []
    ensures PathsIn(fs) == PathsIn(fs[..|fs| - 1]) + {fs[|fs| - 1].path}
  {
    var front := fs[..|fs| - 1];
    forall p | p in PathsIn(fs)
      ensures p in PathsIn(front) + {fs[|fs| - 1].path}
    {
      var i :| 0 <= i < |fs| && fs[i].path == p;
      if i < |fs| - 1 {
        assert front[i].path == p;
      }
    }
    forall p | p in PathsIn(front) + {fs[|fs| - 1].path}
      ensures p in PathsIn(fs)
    {
      if p in PathsIn(front) {
        var i :| 0 <= i < |front| && front[i].path == p;
        assert fs[i].path == p;
      }
    }
  }

  lemma ListStoresOnly(es: seq<Event>, dir: Option<Text>, size: U64, offset: int, w: World)
    ensures
      var fs := ListOutcome(dir, size, offset, w).events;
      Known(es + fs) == Known(es) + PathsIn(fs)
  {
    hide PassedCount, StoredCount, Rejections, Accepted, SerializeAll, Listing;
    KnownStores(es, ListOutcome(dir, size, offset, w).events);
  }

  lemma ListEvents(dir: Option<Text>, size: U64, offset: int, w: World)
    ensures
      var o := ListOutcome(dir, size, offset, w);
      w.readdir(dir).Some? && offset + 1 < 2 + |w.readdir(dir).value| ==>
        && (o.fatal <==> AnyEnds(dir, w.readdir(dir).value, size, w))
        && StoresFirst(o.events, dir, w.readdir(dir).value, w)
        && (!o.fatal ==> |o.events| == 2 + |w.readdir(dir).value|)
  {
    hide PassedCount, StoredCount, Entries, AnyEnds, StoresFirst, ListingEvents, Rejections, Accepted, Listing;
    if w.readdir(dir).Some? {
      var listed := w.readdir(dir).value;
      EntriesAt(listed);
      ListedAllIff(dir, listed, size, w);
      ListingStoresFirst(dir, listed, size, w);
      if PassedCount(dir, Entries(listed), size, w) == |Entries(listed)| {
        AllCounted(dir, Entries(listed), size, w);
      }
    }
  }

  lemma NoRecords()
    ensures SerializeAll([]) == []
  {
  }

  /** The first i entries have been stored, offered and, where rejected, answered. */
  ghost predicate Listed(dir: Option<Text>, names: seq<Text>, i: nat, offset: int, size: U64, w: World,
    h0: seq<Event>, h: seq<Event>, sent0: seq<Msg>, sent: seq<Msg>, kept: seq<Dirent>)
  {
    i <= |names| && PassedCount(dir, names, size, w) >= i
    && h == h0 + ListingEvents(dir, names[..i], w)
    && kept == Accepted(Listing(dir, names[..i], offset, w), size)
    && sent == sent0 + Empties(Rejections(Listing(dir, names[..i], offset, w), size))
  }

  lemma StartListing(dir: Option<Text>, names: seq<Text>, offset: int, size: U64, w: World, h: seq<Event>, sent: seq<Msg>)
    ensures Listed(dir, names, 0, offset, size, w, h, h, sent, sent, [])
  {
  }

  /** After entry i: the next entry's turn, or the outcome of a listing that ends here. */
  lemma ListedStep(dir: Option<Text>, listed: seq<Text>, i: nat, offset: int, size: U64, w: World,
    h0: seq<Event>, h: seq<Event>, h': seq<Event>, sent0: seq<Msg>, sent: seq<Msg>, sent': seq<Msg>,
    kept: seq<Dirent>, kept': seq<Dirent>)
    requires w.readdir(dir) == Some(listed) && i < |Entries(listed)| && offset + 1 < |Entries(listed)|
    requires Listed(dir, Entries(listed), i, offset, size, w, h0, h, sent0, sent, kept)
    requires
      var name := Entries(listed)[i];
      && h' == (if Readable(dir, name, w) then h + [Store(PathOf(dir, name, w))] else h)
      && if Passes(dir, name, size, w) then
           && kept' == Offer(kept, DirentOf(dir, name, offset + i, w), size)
           && sent' == sent + if kept' == kept then [Buf([])] else []
         else sent' == sent
    ensures Passes(dir, Entries(listed)[i], size, w) ==>
      Listed(dir, Entries(listed), i + 1, offset, size, w, h0, h', sent0, sent', kept')
    ensures !Passes(dir, Entries(listed)[i], size, w) ==>
      Did(ListOutcome(dir, size, offset, w), h0, h', sent0, sent', true, false)
  {
    hide Entries, Passes, PassedCount, StoredCount, Readable, PathOf, Listing, ListingEvents, Accepted, Rejections,
      Offer, DirentOf;
    var names := Entries(listed);
    CountStep(dir, names, i, size, w);
    NextEntry(dir, names, i, offset, size, w);
    NextEvent(dir, names, i, w);
  }

  /** The outcome of a listing that comes to its end, but for the last reply. */
  lemma ListedAll(dir: Option<Text>, listed: seq<Text>, offset: int, size: U64, w: World,
    h0: seq<Event>, h: seq<Event>, sent0: seq<Msg>, sent: seq<Msg>, kept: seq<Dirent>)
    requires w.readdir(dir) == Some(listed) && offset + 1 < |Entries(listed)|
    requires Listed(dir, Entries(listed), |Entries(listed)|, offset, size, w, h0, h, sent0, sent, kept)
    ensures Did(ListOutcome(dir, size, offset, w), h0, h, sent0, sent + [Buf(SerializeAll(kept))], false, false)
  {
    hide Entries, PassedCount, StoredCount, Listing, ListingEvents, Accepted, Rejections, SerializeAll;
    var names := Entries(listed);
    assert names[..|names|] == names;
    AllCounted(dir, names, size, w);
  }

  /** In the loop: entry i passes exactly when the count goes on; else it is stored only
      if it could be read. */
  lemma CountStep(dir: Option<Text>, names: seq<Text>, i: nat, size: U64, w: World)
    requires i < |names| && PassedCount(dir, names, size, w) >= i
    ensures Passes(dir, names[i], size, w) ==>
      Readable(dir, names[i], w) && PassedCount(dir, names, size, w) >= i + 1
    ensures !Passes(dir, names[i], size, w) ==>
      && PassedCount(dir, names, size, w) == i
      && StoredCount(dir, names, size, w) == if Readable(dir, names[i], w) then i + 1 else i
  {
    hide RecordSize, CString;
    CountReaches(dir, names, i, size, w);
  }

  lemma {:induction false} CountReaches(dir: Option<Text>, names: seq<Text>, i: nat, size: U64, w: World)
    requires i < |names| && PassedCount(dir, names, size, w) >= i
    ensures Passes(dir, names[i], size, w) <==> PassedCount(dir, names, size, w) >= i + 1
  {
    if i > 0 {
      CountReaches(dir, names[1..], i - 1, size, w);
    }
  }

  lemma AllCounted(dir: Option<Text>, names: seq<Text>, size: U64, w: World)
    requires PassedCount(dir, names, size, w) >= |names|
    ensures PassedCount(dir, names, size, w) == |names| == StoredCount(dir, names, size, w)
  {
  }

  lemma DirentIs(dir: Option<Text>, name: Text, offset: int, mode: U32, w: World)
    requires ModeOf(dir, name, w) == mode
    ensures DirentOf(dir, name, offset, w) ==
      NewDirent(w.utf8(name), Stats(mode, Some(InodeOf(PathOf(dir, name, w)))), ToWord(offset))
    ensures DirentOf(dir, name, offset, w).name == CString(w.utf8(name))
  {
  }

  /** What one more offered entry does to the kept ones and to the replies. */
  lemma NextEntry(dir: Option<Text>, names: seq<Text>, i: nat, offset: int, size: nat, w: World)
    requires i < |names|
    ensures
      var before, after := Listing(dir, names[..i], offset, w), Listing(dir, names[..i + 1], offset, w);
      var d := DirentOf(dir, names[i], offset + i, w);
      && Accepted(after, size) == Offer(Accepted(before, size), d, size)
      && Empties(Rejections(after, size)) ==
        Empties(Rejections(before, size)) + if Accepted(after, size) == Accepted(before, size) then [Buf([])] else []
  {
    var before, after := Listing(dir, names[..i], offset, w), Listing(dir, names[..i + 1], offset, w);
    var d := DirentOf(dir, names[i], offset + i, w);
    assert after == before + [d];
    AcceptedAppend(before, d, size);
  }

  lemma NextEvent(dir: Option<Text>, names: seq<Text>, i: nat, w: World)
    requires i < |names|
    ensures ListingEvents(dir, names[..i + 1], w) ==
      ListingEvents(dir, names[..i], w) + [Store(PathOf(dir, names[i], w))]
  {
  }
}
