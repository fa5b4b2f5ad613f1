/** What the NodeFS handlers do, as functions of their JavaScript arguments, the table and
    the answers of the file system. */
module Handlers {
  import opened Numbers
  import opened Marshalling
  import opened PathHash
  import opened PathIndex
  import opened Dirents
  import opened Replies

  const EIO: int := 5
  const ENOENT: int := 2

  /** The synchronous `fs` calls that change something. */
  datatype SysCall =
    | MkDirSync(path: Text, mode: int)
    | UnlinkSync(path: Text)
    | LinkSync(src: Option<Text>, dst: Text)
    | SymLinkSync(target: Text, dst: Text)
    | RenameSync(from: Text, dst: Text)
    | ChModSync(of: Option<Text>, attrs: JsValue)

  /** Such a call raises an exception, or returns a value the code tests for truth. */
  datatype Sys = Raised | Returned(truthy: bool)

  /** `fs.rmdir` is asynchronous: it raises at once, or it returns nothing and removes
      the directory, or fails to, later. */
  datatype Deferred = Refused | Started(removes: bool)

  datatype OpenResult = OpenRaised | Fd(notANumber: bool)

  /** What `path`, `fs` and malloc answer during one handler; None stands for an
      exception. A stat answers with the mode. */
  datatype World = World(
    join: (Option<Text>, Text) -> Option<Text>,
    utf8: Text -> Utf8,
    lstat: Option<Text> -> Option<U32>,
    stat: Option<Text> -> Option<U32>,
    readdir: Option<Text> -> Option<seq<Text>>,
    malloc: U64 -> bool,
    act: SysCall -> Sys,
    rmdir: Text -> Deferred,
    open: (Option<Text>, string) -> OpenResult,
    create: (Text, int) -> OpenResult,
    readlink: Option<Text> -> Option<Text>,
    readRaises: (JsValue, int, int) -> bool,
    write: (Option<Text>, JsValue, int, JsValue) -> Option<nat>)

  /** What a handler does: table updates, replies sent, whether it ends the process (by an
      exception, or by a record written outside a buffer), and whether a read was
      started whose reply comes later. */
  datatype Outcome = Outcome(events: seq<Event>, sent: seq<Msg>, fatal: bool, reading: bool)

  const FATAL: Outcome := Outcome([], [], true, false)
  const SILENT: Outcome := Outcome([], [], false, false)

  function Answer(m: Msg): Outcome { Outcome([], [m], false, false) }

  function StoreAnd(p: Text, m: Msg): Outcome { Outcome([Store(p)], [m], false, false) }

  /** `self.tree[inode]`, undefined for an unknown inode. */
  function At(t: Tree, inode: int): Option<Text> {
    if 0 <= inode && inode in t then Some(t[inode]) else None
  }

  // ---- Handlers that update the table ----

  /** The stats in a lookup's entry carry no inode property. */
  function LookupOutcome(parent: int, name: Text, t: Tree, w: World): Outcome {
    match w.join(At(t, parent), name)
    case None => FATAL
    case Some(p) =>
      match w.lstat(Some(p))
      case None => Answer(Err(ENOENT))
      case Some(mode) => StoreAnd(p, Entry(InodeOf(p), ObjectToStat(Stats(mode, None))))
  }

  /** mkdir, link and symlink, after their call: reply with the new path's entry. */
  function MadeOutcome(p: Text, result: Sys, stat: Option<U32>): Outcome {
    if result.Raised? then FATAL
    else if result.truthy then Answer(Err(EIO))
    else
      match stat
      case None => FATAL
      case Some(mode) => StoreAnd(p, Entry(InodeOf(p), ObjectToStat(Stats(mode, Some(InodeOf(p))))))
  }

  function MkDirOutcome(parent: int, name: Text, mode: int, t: Tree, w: World): Outcome {
    match w.join(At(t, parent), name)
    case None => FATAL
    case Some(p) => MadeOutcome(p, w.act(MkDirSync(p, mode)), w.stat(Some(p)))
  }

  function LinkOutcome(inode: int, newParent: int, newName: Text, t: Tree, w: World): Outcome {
    match w.join(At(t, newParent), newName)
    case None => FATAL
    case Some(p) => MadeOutcome(p, w.act(LinkSync(At(t, inode), p)), w.stat(Some(p)))
  }

  function SymLinkOutcome(parent: int, link: Text, name: Text, t: Tree, w: World): Outcome {
    match w.join(At(t, parent), name)
    case None => FATAL
    case Some(p) => MadeOutcome(p, w.act(SymLinkSync(link, p)), w.lstat(Some(p)))
  }

  function UnlinkOutcome(parent: int, name: Text, t: Tree, w: World): Outcome {
    match w.join(At(t, parent), name)
    case None => FATAL
    case Some(p) =>
      match w.act(UnlinkSync(p))
      case Raised => FATAL
      case Returned(truthy) => if truthy then Answer(Err(EIO)) else Outcome([Drop(p)], [Err(0)], false, false)
  }

  function RmDirOutcome(parent: int, name: Text, t: Tree, w: World): Outcome {
    match w.join(At(t, parent), name)
    case None => FATAL
    case Some(p) => if w.rmdir(p).Refused? then FATAL else Outcome([Drop(p)], [Err(0)], false, false)
  }

  function RenameOutcome(parent: int, name: Text, newParent: int, newName: Text, t: Tree, w: World): Outcome {
    match w.join(At(t, parent), name)
    case None => FATAL
    case Some(from) =>
      match w.join(At(t, newParent), newName)
      case None => FATAL
      case Some(p) => if w.act(RenameSync(from, p)).Raised? then FATAL else StoreAnd(p, Err(0))
  }

  function CreateOutcome(parent: int, name: Text, mode: int, t: Tree, w: World): Outcome {
    match w.join(At(t, parent), name)
    case None => FATAL
    case Some(p) =>
      match w.create(p, mode)
      case OpenRaised => FATAL
      case Fd(notANumber) =>
        if notANumber then Answer(Err(EIO)) else
          match w.stat(Some(p))
          case None => FATAL
          case Some(statMode) => StoreAnd(p, Created(InodeOf(p), ObjectToStat(Stats(statMode, Some(InodeOf(p))))))
  }

  // ---- readdir ----

  const DOT_DOT: Text := [46, 46]
  const DOT: Text := [46]

  function Entries(listed: seq<Text>): seq<Text> { [DOT_DOT, DOT] + listed }

  /** Whether the path and the stat of this name raise nothing. */
  predicate Readable(dir: Option<Text>, name: Text, w: World) {
    w.join(dir, name).Some? && w.lstat(w.join(dir, name)).Some?
  }

  /** Whether listing this name keeps the process alive: its record must not be written
      when the buffer could not be allocated. */
  predicate Passes(dir: Option<Text>, name: Text, size: U64, w: World) {
    Readable(dir, name, w) && (w.malloc(size) || size < RecordSize(|CString(w.utf8(name))|))
  }

  /** The names before the first one that ends the process. */
  function PassedCount(dir: Option<Text>, names: seq<Text>, size: U64, w: World): (n: nat)
    ensures n <= |names|
  {
    if names == [] || !Passes(dir, names[0], size, w) then 0 else 1 + PassedCount(dir, names[1..], size, w)
  }

  /** A name whose record crashes has been stored before. */
  function StoredCount(dir: Option<Text>, names: seq<Text>, size: U64, w: World): (n: nat)
    ensures n <= |names|
  {
    var n := PassedCount(dir, names, size, w);
    if n < |names| && Readable(dir, names[n], w) then n + 1 else n
  }

  function PathOf(dir: Option<Text>, name: Text, w: World): Text {
    if w.join(dir, name).Some? then w.join(dir, name).value else []
  }

  function ModeOf(dir: Option<Text>, name: Text, w: World): U32 {
    var mode := w.lstat(w.join(dir, name));
    if mode.Some? then mode.value else 0
  }

  function DirentOf(dir: Option<Text>, name: Text, offset: int, w: World): Dirent {
    NewDirent(w.utf8(name), Stats(ModeOf(dir, name, w), Some(InodeOf(PathOf(dir, name, w)))), ToWord(offset))
  }

  /** The records offered for a listing: entry i carries offset + i. */
  function Listing(dir: Option<Text>, names: seq<Text>, offset: int, w: World): seq<Dirent> {
    seq(|names|, i requires 0 <= i < |names| => DirentOf(dir, names[i], offset + i, w))
  }

  function ListingEvents(dir: Option<Text>, names: seq<Text>, w: World): seq<Event> {
    seq(|names|, i requires 0 <= i < |names| => Store(PathOf(dir, names[i], w)))
  }

  function Empties(n: nat): seq<Msg> { seq(n, _ => Buf([])) }

  /** Every rejected entry is answered at once by an empty reply; the accumulated
      records go out at the end. */
  function ListOutcome(dir: Option<Text>, size: U64, offset: int, w: World): Outcome {
    match w.readdir(dir)
    case None => FATAL
    case Some(listed) =>
      var names := Entries(listed);
      if |names| <= offset + 1 then Answer(Buf([])) else
        var n := PassedCount(dir, names, size, w);
        var ds := Listing(dir, names[..n], offset, w);
        Outcome(
          ListingEvents(dir, names[..StoredCount(dir, names, size, w)], w),
          Empties(Rejections(ds, size)) + (if n == |names| then [Buf(SerializeAll(Accepted(ds, size)))] else []),
          n < |names|,
          false)
  }

  // ---- What a listing is about, from the directory itself ----

  /** d is the record of this name in the directory. */
  ghost predicate IsRecord(d: Dirent, dir: Option<Text>, name: Text, offset: int, w: World) {
    var p := w.join(dir, name);
    && p.Some? && w.lstat(p).Some?
    && d == Dirent(InodeOf(p.value), ToWord(offset), KindOf(w.lstat(p).value), CString(w.utf8(name)))
  }

  /** The records of "..", "." and each name that the directory was read to hold, in order,
      with consecutive offsets. */
  ghost predicate Lists(ds: seq<Dirent>, dir: Option<Text>, listed: seq<Text>, offset: int, w: World) {
    && |ds| == 2 + |listed|
    && IsRecord(ds[0], dir, [46, 46], offset, w)
    && IsRecord(ds[1], dir, [46], offset + 1, w)
    && forall i :: 0 <= i < |listed| ==> IsRecord(ds[2 + i], dir, listed[i], offset + 2 + i, w)
  }

  ghost predicate IsStore(e: Event, dir: Option<Text>, name: Text, w: World) {
    e.Store? && w.join(dir, name) == Some(e.path)
  }

  /** Stores of the joined paths of "..", "." and the listed names, in order, as far as
      they go. */
  ghost predicate StoresFirst(es: seq<Event>, dir: Option<Text>, listed: seq<Text>, w: World) {
    && |es| <= 2 + |listed|
    && (|es| > 0 ==> IsStore(es[0], dir, [46, 46], w))
    && (|es| > 1 ==> IsStore(es[1], dir, [46], w))
    && forall i :: 0 <= i < |listed| && 2 + i < |es| ==> IsStore(es[2 + i], dir, listed[i], w)
  }

  /** Listing this name ends the process: its path or its stat raises, or its record is
      written although the buffer could not be allocated. */
  predicate EntryEnds(dir: Option<Text>, name: Text, size: U64, w: World) {
    || w.join(dir, name).None?
    || w.lstat(w.join(dir, name)).None?
    || (!w.malloc(size) && RecordSize(|CString(w.utf8(name))|) <= size)
  }

  ghost predicate AnyEnds(dir: Option<Text>, listed: seq<Text>, size: U64, w: World) {
    || EntryEnds(dir, [46, 46], size, w)
    || EntryEnds(dir, [46], size, w)
    || exists i :: 0 <= i < |listed| && EntryEnds(dir, listed[i], size, w)
  }

  lemma {:induction false} AllPassIff(dir: Option<Text>, names: seq<Text>, size: U64, w: World)
    ensures PassedCount(dir, names, size, w) == |names| <==>
      forall i :: 0 <= i < |names| ==> !EntryEnds(dir, names[i], size, w)
  {
    hide RecordSize, CString;
    if names != [] {
      AllPassIff(dir, names[1..], size, w);
      if forall i :: 0 <= i < |names| ==> !EntryEnds(dir, names[i], size, w) {
        assert forall i :: 0 <= i < |names[1..]| ==> names[1..][i] == names[i + 1];
      } else {
        var i :| 0 <= i < |names| && EntryEnds(dir, names[i], size, w);
        assert i > 0 ==> names[1..][i - 1] == names[i];
      }
    }
  }

  lemma {:induction false} PassedAreReadable(dir: Option<Text>, names: seq<Text>, size: U64, w: World, i: nat)
    requires i < PassedCount(dir, names, size, w)
    ensures Readable(dir, names[i], w)
  {
    if i > 0 {
      PassedAreReadable(dir, names[1..], size, w, i - 1);
    }
  }

  lemma StoredAreReadable(dir: Option<Text>, names: seq<Text>, size: U64, w: World, i: nat)
    requires i < StoredCount(dir, names, size, w)
    ensures Readable(dir, names[i], w)
  {
    if i < PassedCount(dir, names, size, w) {
      PassedAreReadable(dir, names, size, w, i);
    }
  }

  lemma EntriesAt(listed: seq<Text>)
    ensures |Entries(listed)| == 2 + |listed| && Entries(listed)[0] == [46, 46] && Entries(listed)[1] == [46]
    ensures forall i :: 0 <= i < |listed| ==> Entries(listed)[2 + i] == listed[i]
  {
  }

  /** A listing ends the process exactly when one of its names does. */
  lemma ListedAllIff(dir: Option<Text>, listed: seq<Text>, size: U64, w: World)
    ensures PassedCount(dir, Entries(listed), size, w) == |Entries(listed)| <==> !AnyEnds(dir, listed, size, w)
  {
    hide EntryEnds, PassedCount, Entries;
    var names := Entries(listed);
    EntriesAt(listed);
    AllPassIff(dir, names, size, w);
    if !AnyEnds(dir, listed, size, w) {
      forall i | 0 <= i < |names|
        ensures !EntryEnds(dir, names[i], size, w)
      {
        if i >= 2 {
          assert names[i] == names[2 + (i - 2)] == listed[i - 2];
        }
      }
    }
  }

  /** The records a listing offers are those of the directory. */
  lemma ListingLists(dir: Option<Text>, listed: seq<Text>, size: U64, offset: int, w: World)
    requires PassedCount(dir, Entries(listed), size, w) == |Entries(listed)|
    ensures Lists(Listing(dir, Entries(listed), offset, w), dir, listed, offset, w)
  {
    hide PassedCount, Entries, InodeOf, CString, KindOf;
    var names := Entries(listed);
    EntriesAt(listed);
    forall i: nat | i < |names|
      ensures IsRecord(Listing(dir, names, offset, w)[i], dir, names[i], offset + i, w)
    {
      PassedAreReadable(dir, names, size, w, i);
      SmallInode(PathOf(dir, names[i], w));
    }
    assert forall i :: 0 <= i < |listed| ==> names[2 + i] == listed[i];
  }

  /** An inode number survives the conversion to `st_ino`. */
  lemma SmallInode(p: Text)
    ensures InodeOf(p) <= 0x8000_0000 && ToWord(InodeOf(p)) == InodeOf(p)
  {
  }

  /** The updates of a listing, even one that breaks off, are the stores of its names. */
  lemma ListingStoresFirst(dir: Option<Text>, listed: seq<Text>, size: U64, w: World)
    ensures
      var es := ListingEvents(dir, Entries(listed)[..StoredCount(dir, Entries(listed), size, w)], w);
      StoresFirst(es, dir, listed, w) && |es| == StoredCount(dir, Entries(listed), size, w)
  {
    hide PassedCount, StoredCount, Entries;
    var names := Entries(listed);
    var n := StoredCount(dir, names, size, w);
    EntriesAt(listed);
    var es := ListingEvents(dir, names[..n], w);
    forall i: nat | i < n
      ensures IsStore(es[i], dir, names[i], w)
    {
      StoredAreReadable(dir, names, size, w, i);
    }
    assert forall i :: 0 <= i < |listed| ==> names[2 + i] == listed[i];
  }

  // ---- Handlers that leave the table alone ----

  function GetAttrOutcome(inode: int, t: Tree, w: World): Outcome {
    match w.lstat(At(t, inode))
    case None => Answer(Err(ENOENT))
    case Some(mode) => Answer(Attr(ObjectToStat(Stats(mode, Some(inode)))))
  }

  /** The stats replied here carry no inode property. */
  function SetAttrOutcome(inode: int, attrs: JsValue, t: Tree, w: World): Outcome {
    match w.act(ChModSync(At(t, inode), attrs))
    case Raised => FATAL
    case Returned(truthy) =>
      if truthy then Answer(Err(EIO)) else
        match w.lstat(At(t, inode))
        case None => FATAL
        case Some(mode) => Answer(Attr(ObjectToStat(Stats(mode, None))))
  }

  function ReadLinkOutcome(inode: int, t: Tree, w: World): Outcome {
    match w.readlink(At(t, inode))
    case None => FATAL
    case Some(target) => Answer(LinkTarget(target))
  }

  function OpenOutcome(inode: int, t: Tree, w: World): Outcome {
    var first := w.open(At(t, inode), "a+");
    var fd := if first.OpenRaised? then w.open(At(t, inode), "r") else first;
    match fd
    case OpenRaised => FATAL
    case Fd(notANumber) => Answer(if notANumber then Err(EIO) else Opened)
  }

  function ReadOutcome(size: int, offset: int, fi: JsValue, w: World): Outcome {
    if w.readRaises(fi, size, offset) then FATAL else Outcome([], [], false, true)
  }

  function WriteOutcome(inode: int, data: JsValue, offset: int, fi: JsValue, t: Tree, w: World): Outcome {
    match w.write(At(t, inode), data, offset, fi)
    case None => FATAL
    case Some(count) => Answer(Written(count))
  }

  /** `reply.xattr` takes a signed 32-bit number only. */
  function GetXAttrOutcome(size: int): Outcome {
    if 0 <= size < 0x8000_0000 then Answer(Xattr(size)) else FATAL
  }

  // ---- The handlers by their parameter lists ----

  predicate ExpectsReply(op: Op) { !op.Init? && !op.Destroy? && !op.Forget? }

  /** The position of `reply` among the handler's parameters. */
  function ReplyParameter(op: Op): nat {
    match op
    case Init | Destroy | Forget => 0
    case GetAttr | ReadLink | StatFs => 2
    case Lookup | SetAttr | Unlink | RmDir | Open | Flush | Release | OpenDir | ReleaseDir
      | ListXAttr | RemoveXAttr | Access => 3
    case MkDir | SymLink | Link | FSync | FSyncDir | GetLock | BMap => 4
    case MkNod | Rename | Read | Write | ReadDir | GetXAttr | Create | SetLock => 5
    case SetXAttr => 7
  }

  function Parameter(args: seq<JsValue>, i: nat): JsValue {
    if i < |args| then args[i] else Undefined
  }

  /** A number, or no inode at all. */
  function NumAt(args: seq<JsValue>, i: nat): int {
    if Parameter(args, i).Num? then Parameter(args, i).n else -1
  }

  function TextAt(args: seq<JsValue>, i: nat): Text {
    if Parameter(args, i).JsStr? then Parameter(args, i).str else []
  }

  /** `typeof v === 'object'`. */
  predicate IsObject(v: JsValue) {
    !v.Undefined? && !v.Num? && !v.JsStr?
  }

  /** What `reply` is bound to; getxattr takes its fifth argument when that is an object. */
  function BoundReply(op: Op, args: seq<JsValue>): JsValue {
    if op.GetXAttr? && IsObject(Parameter(args, 4)) then Parameter(args, 4)
    else Parameter(args, ReplyParameter(op))
  }

  /** The handler of an operation, called with these arguments. Every parameter is read by
      its position in the handler's signature; a handler without a reply object raises
      at its first use, which setxattr, the only such one, makes before anything else. */
  function OnArguments(op: Op, args: seq<JsValue>, t: Tree, w: World): Outcome {
    if ExpectsReply(op) && BoundReply(op, args) != ReplyObject then FATAL else
      match op
      case Init | Destroy | Forget => SILENT
      case Lookup => LookupOutcome(NumAt(args, 1), TextAt(args, 2), t, w)
      case GetAttr => GetAttrOutcome(NumAt(args, 1), t, w)
      case SetAttr => SetAttrOutcome(NumAt(args, 1), Parameter(args, 2), t, w)
      case ReadLink => ReadLinkOutcome(NumAt(args, 1), t, w)
      case MkNod => Answer(Err(ENOENT))
      case MkDir => MkDirOutcome(NumAt(args, 1), TextAt(args, 2), NumAt(args, 3), t, w)
      case Unlink => UnlinkOutcome(NumAt(args, 1), TextAt(args, 2), t, w)
      case RmDir => RmDirOutcome(NumAt(args, 1), TextAt(args, 2), t, w)
      case SymLink => SymLinkOutcome(NumAt(args, 1), TextAt(args, 2), TextAt(args, 3), t, w)
      case Rename => RenameOutcome(NumAt(args, 1), TextAt(args, 2), NumAt(args, 3), TextAt(args, 4), t, w)
      case Link => LinkOutcome(NumAt(args, 1), NumAt(args, 2), TextAt(args, 3), t, w)
      case Open => OpenOutcome(NumAt(args, 1), t, w)
      case Read => ReadOutcome(NumAt(args, 2), NumAt(args, 3), Parameter(args, 4), w)
      case Write => WriteOutcome(NumAt(args, 1), Parameter(args, 2), NumAt(args, 3), Parameter(args, 4), t, w)
      case ReadDir => ListOutcome(At(t, NumAt(args, 1)), ToWord(NumAt(args, 2)), NumAt(args, 3), w)
      case Create => CreateOutcome(NumAt(args, 1), TextAt(args, 2), NumAt(args, 3), t, w)
      case StatFs => Answer(Statistics)
      case OpenDir => Answer(Opened)
      case GetXAttr => GetXAttrOutcome(NumAt(args, 3))
      case BMap => FATAL
      case Flush | Release | FSync | ReleaseDir | FSyncDir | SetXAttr | ListXAttr | RemoveXAttr | Access
        | GetLock | SetLock => Answer(Err(0))
  }

  // ---- One dispatched callback ----

  /** What NodeFS does with a callback: its handler on the arguments the binding makes. */
  function Handle(cb: Callback, t: Tree, w: World): Outcome { OnArguments(OpOf(cb), JsArgs(cb), t, w) }

  ghost predicate EndsInReply(cb: Callback) {
    var n := |Arguments(cb)|;
    && n >= 3 && Arguments(cb)[n - 1] == Plain(ReplyObject)
    && n == (if cb.SetXAttr? then ReplyParameter(OpOf(cb))
        else if cb.GetXAttr? then 5 else ReplyParameter(OpOf(cb)) + 1)
  }

  lemma ReplyIsLastNaming(cb: Callback)
    requires FamilyOf(cb).Naming? || FamilyOf(cb).Linking?
    ensures EndsInReply(cb)
  {
  }

  lemma ReplyIsLastFileIo(cb: Callback)
    requires FamilyOf(cb).FileIo?
    ensures EndsInReply(cb)
  {
  }

  lemma ReplyIsLastMetadata(cb: Callback)
    requires FamilyOf(cb).Metadata? && ExpectsReply(OpOf(cb))
    ensures EndsInReply(cb)
  {
  }

  lemma ReplyIsLast(cb: Callback)
    requires ExpectsReply(OpOf(cb))
    ensures EndsInReply(cb)
  {
    hide EndsInReply, ExpectsReply, OpOf;
    match FamilyOf(cb)
    case Naming | Linking => ReplyIsLastNaming(cb);
    case FileIo => ReplyIsLastFileIo(cb);
    case Metadata => ReplyIsLastMetadata(cb);
  }

  /** On Linux every handler gets its reply object, except setxattr: it declares a
      position parameter that the binding does not pass. */
  lemma ReplyBoundIff(cb: Callback)
    requires ExpectsReply(OpOf(cb))
    ensures BoundReply(OpOf(cb), JsArgs(cb)) == ReplyObject <==> !cb.SetXAttr?
    ensures cb.SetXAttr? ==> BoundReply(OpOf(cb), JsArgs(cb)) == Undefined
  {
    hide Arguments, ReplyParameter;
    ReplyIsLast(cb);
    OpFacts(cb);
    var n := |Arguments(cb)|;
    ArgumentAt(cb, n - 1);
  }

  lemma OpFacts(cb: Callback)
    ensures OpOf(cb).SetXAttr? == cb.SetXAttr? && OpOf(cb).GetXAttr? == cb.GetXAttr?
  {
  }

  lemma ArgumentAt(cb: Callback, i: nat)
    requires i < |Arguments(cb)|
    ensures Parameter(JsArgs(cb), i) == Convert(Arguments(cb)[i])
  {
    hide Arguments;
  }

  /** Inode numbers reach the handlers as doubles. */
  function Key(ino: U64): nat { ToDouble(ino) }

  /** The handlers by the callback's own fields. */
  function Served(cb: Callback, t: Tree, w: World): Outcome {
    match cb
    case Init(_) => SILENT
    case Destroy => SILENT
    case Lookup(_, parent, name) => LookupOutcome(Key(parent), name, t, w)
    case GetAttr(_, ino, _) => GetAttrOutcome(Key(ino), t, w)
    case SetAttr(_, ino, attr, toSet, _) => SetAttrOutcome(Key(ino), AttrsToSet(toSet, attr), t, w)
    case ReadLink(_, ino) => ReadLinkOutcome(Key(ino), t, w)
    case MkNod(_, _, _, _, _) => Answer(Err(ENOENT))
    case MkDir(_, parent, name, mode) => MkDirOutcome(Key(parent), name, ToInt32(mode), t, w)
    case Unlink(_, parent, name) => UnlinkOutcome(Key(parent), name, t, w)
    case RmDir(_, parent, name) => RmDirOutcome(Key(parent), name, t, w)
    case SymLink(_, link, parent, name) => SymLinkOutcome(Key(parent), link, name, t, w)
    case Rename(_, parent, name, newparent, newname) =>
      RenameOutcome(Key(parent), name, Key(newparent), newname, t, w)
    case Link(_, ino, newparent, newname) => LinkOutcome(Key(ino), Key(newparent), newname, t, w)
    case Open(_, ino, _) => OpenOutcome(Key(ino), t, w)
    case Read(_, _, size, off, fi) => ReadOutcome(ToInt32(size), ToInt32(off), FileInfo(fi), w)
    case Write(_, ino, buf, size, off, fi) =>
      WriteOutcome(Key(ino), JsBuffer(buf, size), ToInt32(off), FileInfo(fi), t, w)
    case ReadDir(_, ino, size, off, _) => ListOutcome(At(t, Key(ino)), ToWord(ToInt32(size)), ToInt32(off), w)
    case Create(_, parent, name, mode, _) => CreateOutcome(Key(parent), name, ToInt32(mode), t, w)
    case StatFs(_, _) => Answer(Statistics)
    case OpenDir(_, _, _) => Answer(Opened)
    case GetXAttr(_, _, _, size) => GetXAttrOutcome(ToDouble(size))
    case SetXAttr(_, _, _, _, _, _) => FATAL
    case BMap(_, _, _, _) => FATAL
    case Flush(_, _, _) => Answer(Err(0))
    case Release(_, _, _) => Answer(Err(0))
    case FSync(_, _, _, _) => Answer(Err(0))
    case ReleaseDir(_, _, _) => Answer(Err(0))
    case FSyncDir(_, _, _, _) => Answer(Err(0))
    case ListXAttr(_, _, _) => Answer(Err(0))
    case RemoveXAttr(_, _, _) => Answer(Err(0))
    case Access(_, _, _) => Answer(Err(0))
    case GetLock(_, _, _, _) => Answer(Err(0))
    case SetLock(_, _, _, _, _) => Answer(Err(0))
  }

  lemma NamingIs(cb: Callback, t: Tree, w: World)
    requires FamilyOf(cb).Naming? || FamilyOf(cb).Linking?
    requires BoundReply(OpOf(cb), JsArgs(cb)) == ReplyObject
    ensures Handle(cb, t, w) == Served(cb, t, w)
  {
    hide BoundReply, ToDouble, ToInt32, LookupOutcome, MkDirOutcome, UnlinkOutcome, RmDirOutcome,
      SymLinkOutcome, RenameOutcome, LinkOutcome, CreateOutcome, ReadLinkOutcome;
  }

  lemma FileIoIs(cb: Callback, t: Tree, w: World)
    requires FamilyOf(cb).FileIo?
    requires BoundReply(OpOf(cb), JsArgs(cb)) == ReplyObject
    ensures Handle(cb, t, w) == Served(cb, t, w)
  {
    hide BoundReply, ToDouble, ToInt32, OpenOutcome, ReadOutcome, WriteOutcome, ListOutcome, At;
  }

  lemma MetadataIs(cb: Callback, t: Tree, w: World)
    requires FamilyOf(cb).Metadata? && !cb.SetXAttr?
    requires ExpectsReply(OpOf(cb)) ==> BoundReply(OpOf(cb), JsArgs(cb)) == ReplyObject
    ensures Handle(cb, t, w) == Served(cb, t, w)
  {
    hide BoundReply, ToDouble, ToInt32, GetAttrOutcome, SetAttrOutcome, GetXAttrOutcome;
  }

  /** The parameter lists of the handlers agree with the argument vectors of the binding:
      each handler works on its callback's own values. */
  lemma HandleIs(cb: Callback, t: Tree, w: World)
    ensures Handle(cb, t, w) == Served(cb, t, w)
  {
    hide Served, Handle;
    if ExpectsReply(OpOf(cb)) {
      ReplyBoundIff(cb);
    }
    if cb.SetXAttr? {
      SetXAttrIs(cb, t, w);
    } else {
      ExpectingReply(cb);
      match FamilyOf(cb)
      case Naming | Linking => NamingIs(cb, t, w);
      case FileIo => FileIoIs(cb, t, w);
      case Metadata => MetadataIs(cb, t, w);
    }
  }

  lemma ExpectingReply(cb: Callback)
    ensures ExpectsReply(OpOf(cb)) <==> !cb.Init? && !cb.Destroy?
  {
  }

  lemma SetXAttrIs(cb: Callback, t: Tree, w: World)
    requires cb.SetXAttr?
    ensures Handle(cb, t, w) == Served(cb, t, w)
  {
    hide Arguments, BoundReply;
    ExpectingReply(cb);
    ReplyBoundIff(cb);
  }
}
