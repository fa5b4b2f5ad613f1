/** How a FUSE callback travels through the `void *` array, and what the JavaScript
    handler is called with. The Linux variant of the conditional code. */
module Marshalling {
  import opened Numbers

  datatype Option<+T> = None | Some(value: T) {
    predicate IsFailure() { None? }
    function PropagateFailure<U>(): Option<U>
      requires None?
    {
      None
    }
    function Extract(): T
      requires Some?
    {
      value
    }
  }

  /** The operations `Proxy::Call` knows. */
  datatype Op =
    | Init | Destroy | Lookup | Forget | GetAttr | SetAttr | ReadLink | MkNod
    | MkDir | Unlink | RmDir | SymLink | Rename | Link | Open | Read
    | Write | Flush | Release | FSync | OpenDir | ReadDir | ReleaseDir | FSyncDir
    | StatFs | SetXAttr | GetXAttr | ListXAttr | RemoveXAttr | Access | Create | GetLock
    | SetLock | BMap

  /** The callbacks that pack an argument array, with their C argument types. A
      struct behind a pointer is an opaque number; strings and data are values. */
  datatype Callback =
    | Init(conn: nat)
    | Destroy
    | Lookup(req: U64, parent: U64, name: Text)
    | GetAttr(req: U64, ino: U64, fi: nat)
    | SetAttr(req: U64, ino: U64, attr: nat, toSet: I32, fi: nat)
    | ReadLink(req: U64, ino: U64)
    | MkNod(req: U64, parent: U64, name: Text, mode: U32, rdev: U64)
    | MkDir(req: U64, parent: U64, name: Text, mode: U32)
    | Unlink(req: U64, parent: U64, name: Text)
    | RmDir(req: U64, parent: U64, name: Text)
    | SymLink(req: U64, link: Text, parent: U64, name: Text)
    | Rename(req: U64, parent: U64, name: Text, newparent: U64, newname: Text)
    | Link(req: U64, ino: U64, newparent: U64, newname: Text)
    | Open(req: U64, ino: U64, fi: nat)
    | Read(req: U64, ino: U64, size: U64, off: I64, fi: nat)
    | Write(req: U64, ino: U64, buf: seq<Byte>, size: U64, off: I64, fi: nat)
    | Flush(req: U64, ino: U64, fi: nat)
    | Release(req: U64, ino: U64, fi: nat)
    | FSync(req: U64, ino: U64, datasync: I32, fi: nat)
    | OpenDir(req: U64, ino: U64, fi: nat)
    | ReadDir(req: U64, ino: U64, size: U64, off: I64, fi: nat)
    | ReleaseDir(req: U64, ino: U64, fi: nat)
    | FSyncDir(req: U64, ino: U64, datasync: I32, fi: nat)
    | StatFs(req: U64, ino: U64)
    | SetXAttr(req: U64, ino: U64, name: Text, value: Text, size: U64, flags: I32)
    | GetXAttr(req: U64, ino: U64, name: Text, size: U64)
    | ListXAttr(req: U64, ino: U64, size: U64)
    | RemoveXAttr(req: U64, ino: U64, name: Text)
    | Access(req: U64, ino: U64, mask: I32)
    | Create(req: U64, parent: U64, name: Text, mode: U32, fi: nat)
    | GetLock(req: U64, ino: U64, fi: nat, lock: nat)
    | SetLock(req: U64, ino: U64, fi: nat, lock: nat, sleep: I32)
    | BMap(req: U64, ino: U64, blocksize: U64, idx: U64)

  /** One `void *` of an argument array. */
  datatype Slot =
    | Word(word: U64)
    | Str(text: Text)
    | Data(bytes: seq<Byte>)
    | Struct(id: nat)
    | NameAt(block: nat)

  function OpOf(cb: Callback): Op {
    match cb
    case Init(_) => Op.Init
    case Destroy => Op.Destroy
    case Lookup(_, _, _) => Op.Lookup
    case GetAttr(_, _, _) => Op.GetAttr
    case SetAttr(_, _, _, _, _) => Op.SetAttr
    case ReadLink(_, _) => Op.ReadLink
    case MkNod(_, _, _, _, _) => Op.MkNod
    case MkDir(_, _, _, _) => Op.MkDir
    case Unlink(_, _, _) => Op.Unlink
    case RmDir(_, _, _) => Op.RmDir
    case SymLink(_, _, _, _) => Op.SymLink
    case Rename(_, _, _, _, _) => Op.Rename
    case Link(_, _, _, _) => Op.Link
    case Open(_, _, _) => Op.Open
    case Read(_, _, _, _, _) => Op.Read
    case Write(_, _, _, _, _, _) => Op.Write
    case Flush(_, _, _) => Op.Flush
    case Release(_, _, _) => Op.Release
    case FSync(_, _, _, _) => Op.FSync
    case OpenDir(_, _, _) => Op.OpenDir
    case ReadDir(_, _, _, _, _) => Op.ReadDir
    case ReleaseDir(_, _, _) => Op.ReleaseDir
    case FSyncDir(_, _, _, _) => Op.FSyncDir
    case StatFs(_, _) => Op.StatFs
    case SetXAttr(_, _, _, _, _, _) => Op.SetXAttr
    case GetXAttr(_, _, _, _) => Op.GetXAttr
    case ListXAttr(_, _, _) => Op.ListXAttr
    case RemoveXAttr(_, _, _) => Op.RemoveXAttr
    case Access(_, _, _) => Op.Access
    case Create(_, _, _, _, _) => Op.Create
    case GetLock(_, _, _, _) => Op.GetLock
    case SetLock(_, _, _, _, _) => Op.SetLock
    case BMap(_, _, _, _) => Op.BMap
  }

  /** What the packer stores. `block` is the heap block of Lookup's private name copy. */
  function Slots(cb: Callback, block: nat): seq<Slot> {
    match cb
    case Init(conn) => [Struct(conn)]
    case Destroy => []
    case Lookup(req, parent, _) => [Word(req), Word(parent), NameAt(block)]
    case GetAttr(req, ino, fi) => [Word(req), Word(ino), Struct(fi)]
    case SetAttr(req, ino, attr, toSet, fi) => [Word(req), Word(ino), Struct(attr), Word(ToWord(toSet)), Struct(fi)]
    case ReadLink(req, ino) => [Word(req), Word(ino)]
    case MkNod(req, parent, name, mode, rdev) => [Word(req), Word(parent), Str(name), Word(mode), Word(rdev)]
    case MkDir(req, parent, name, mode) => [Word(req), Word(parent), Str(name), Word(mode)]
    case Unlink(req, parent, name) => [Word(req), Word(parent), Str(name)]
    case RmDir(req, parent, name) => [Word(req), Word(parent), Str(name)]
    case SymLink(req, link, parent, name) => [Word(req), Str(link), Word(parent), Str(name)]
    case Rename(req, parent, name, newparent, newname) => [Word(req), Word(parent), Str(name), Word(newparent), Str(newname)]
    case Link(req, ino, newparent, newname) => [Word(req), Word(ino), Word(newparent), Str(newname)]
    case Open(req, ino, fi) => [Word(req), Word(ino), Struct(fi)]
    case Read(req, ino, size, off, fi) => [Word(req), Word(ino), Word(size), Word(ToWord(off)), Struct(fi)]
    case Write(req, ino, buf, size, off, fi) => [Word(req), Word(ino), Data(buf), Word(size), Word(ToWord(off)), Struct(fi)]
    case Flush(req, ino, fi) => [Word(req), Word(ino), Struct(fi)]
    case Release(req, ino, fi) => [Word(req), Word(ino), Struct(fi)]
    case FSync(req, ino, datasync, fi) => [Word(req), Word(ino), Word(ToWord(datasync)), Struct(fi)]
    case OpenDir(req, ino, fi) => [Word(req), Word(ino), Struct(fi)]
    case ReadDir(req, ino, size, off, fi) => [Word(req), Word(ino), Word(size), Word(ToWord(off)), Struct(fi)]
    case ReleaseDir(req, ino, fi) => [Word(req), Word(ino), Struct(fi)]
    case FSyncDir(req, ino, datasync, fi) => [Word(req), Word(ino), Word(ToWord(datasync)), Struct(fi)]
    case StatFs(req, ino) => [Word(req), Word(ino)]
    case SetXAttr(req, ino, name, value, size, flags) => [Word(req), Word(ino), Str(name), Str(value), Word(size), Word(ToWord(flags))]
    case GetXAttr(req, ino, name, size) => [Word(req), Word(ino), Str(name), Word(size)]
    case ListXAttr(req, ino, size) => [Word(req), Word(ino), Word(size)]
    case RemoveXAttr(req, ino, name) => [Word(req), Word(ino), Str(name)]
    case Access(req, ino, mask) => [Word(req), Word(ino), Word(ToWord(mask))]
    case Create(req, parent, name, mode, fi) => [Word(req), Word(parent), Str(name), Word(mode), Struct(fi)]
    case GetLock(req, ino, fi, lock) => [Word(req), Word(ino), Struct(fi), Struct(lock)]
    case SetLock(req, ino, fi, lock, sleep) => [Word(req), Word(ino), Struct(fi), Struct(lock), Word(ToWord(sleep))]
    case BMap(req, ino, blocksize, idx) => [Word(req), Word(ino), Word(blocksize), Word(idx)]
  }

  /** Groups of callbacks, so that each packer and proof stays small. */
  datatype Family = Naming | Linking | FileIo | Metadata

  function FamilyOf(cb: Callback): Family {
    if cb.Lookup? || cb.MkNod? || cb.MkDir? || cb.Unlink? || cb.RmDir? || cb.Create? then Naming
    else if cb.SymLink? || cb.Rename? || cb.Link? || cb.ReadLink? then Linking
    else if cb.Open? || cb.Read? || cb.Write? || cb.Flush? || cb.Release? || cb.FSync?
      || cb.OpenDir? || cb.ReadDir? || cb.ReleaseDir? || cb.FSyncDir? then FileIo
    else Metadata
  }

  predicate IsMakingCall(cb: Callback) { cb.MkNod? || cb.MkDir? || cb.Create? }

  predicate IsDirectoryCall(cb: Callback) {
    cb.OpenDir? || cb.ReadDir? || cb.ReleaseDir? || cb.FSyncDir?
  }

  predicate IsXAttrCall(cb: Callback) {
    cb.SetXAttr? || cb.GetXAttr? || cb.ListXAttr? || cb.RemoveXAttr?
  }

  predicate IsLockingCall(cb: Callback) { cb.GetLock? || cb.SetLock? || cb.BMap? }

  // ---- The packers of FileSystem: allocate the array and fill it slot by slot ----

  method PackName(cb: Callback, block: nat) returns (args: array<Slot>)
    requires cb.Lookup? || cb.Unlink? || cb.RmDir?
    ensures fresh(args) && args[..] == Slots(cb, block)
  {
    hide ToWord;
    match cb
    case Lookup(req, parent, _) =>
      args := new Slot[3];
      args[0] := Word(req);
      args[1] := Word(parent);
      args[2] := NameAt(block);
    case Unlink(req, parent, name) =>
      args := new Slot[3];
      args[0] := Word(req);
      args[1] := Word(parent);
      args[2] := Str(name);
    case RmDir(req, parent, name) =>
      args := new Slot[3];
      args[0] := Word(req);
      args[1] := Word(parent);
      args[2] := Str(name);
  }

  method PackMaking(cb: Callback, block: nat) returns (args: array<Slot>)
    requires IsMakingCall(cb)
    ensures fresh(args) && args[..] == Slots(cb, block)
  {
    hide ToWord;
    match cb
    case MkNod(req, parent, name, mode, rdev) =>
      args := new Slot[5];
      args[0] := Word(req);
      args[1] := Word(parent);
      args[2] := Str(name);
      args[3] := Word(mode);
      args[4] := Word(rdev);
    case MkDir(req, parent, name, mode) =>
      args := new Slot[4];
      args[0] := Word(req);
      args[1] := Word(parent);
      args[2] := Str(name);
      args[3] := Word(mode);
    case Create(req, parent, name, mode, fi) =>
      args := new Slot[5];
      args[0] := Word(req);
      args[1] := Word(parent);
      args[2] := Str(name);
      args[3] := Word(mode);
      args[4] := Struct(fi);
  }

  method PackLinking(cb: Callback, block: nat) returns (args: array<Slot>)
    requires FamilyOf(cb) == Linking
    ensures fresh(args) && args[..] == Slots(cb, block)
  {
    hide ToWord;
    match cb
    case SymLink(req, link, parent, name) =>
      args := new Slot[4];
      args[0] := Word(req);
      args[1] := Str(link);
      args[2] := Word(parent);
      args[3] := Str(name);
    case Rename(req, parent, name, newparent, newname) =>
      args := new Slot[5];
      args[0] := Word(req);
      args[1] := Word(parent);
      args[2] := Str(name);
      args[3] := Word(newparent);
      args[4] := Str(newname);
    case Link(req, ino, newparent, newname) =>
      args := new Slot[4];
      args[0] := Word(req);
      args[1] := Word(ino);
      args[2] := Word(newparent);
      args[3] := Str(newname);
    case ReadLink(req, ino) =>
      args := new Slot[2];
      args[0] := Word(req);
      args[1] := Word(ino);
  }

  method PackFile(cb: Callback, block: nat) returns (args: array<Slot>)
    requires FamilyOf(cb) == FileIo && !IsDirectoryCall(cb)
    ensures fresh(args) && args[..] == Slots(cb, block)
  {
    hide ToWord;
    match cb
    case Open(req, ino, fi) =>
      args := new Slot[3];
      args[0] := Word(req);
      args[1] := Word(ino);
      args[2] := Struct(fi);
    case Read(req, ino, size, off, fi) =>
      args := new Slot[5];
      args[0] := Word(req);
      args[1] := Word(ino);
      args[2] := Word(size);
      args[3] := Word(ToWord(off));
      args[4] := Struct(fi);
    case Write(req, ino, buf, size, off, fi) =>
      args := new Slot[6];
      args[0] := Word(req);
      args[1] := Word(ino);
      args[2] := Data(buf);
      args[3] := Word(size);
      args[4] := Word(ToWord(off));
      args[5] := Struct(fi);
    case Flush(req, ino, fi) =>
      args := new Slot[3];
      args[0] := Word(req);
      args[1] := Word(ino);
      args[2] := Struct(fi);
    case Release(req, ino, fi) =>
      args := new Slot[3];
      args[0] := Word(req);
      args[1] := Word(ino);
      args[2] := Struct(fi);
    case FSync(req, ino, datasync, fi) =>
      args := new Slot[4];
      args[0] := Word(req);
      args[1] := Word(ino);
      args[2] := Word(ToWord(datasync));
      args[3] := Struct(fi);
  }

  method PackDirectory(cb: Callback, block: nat) returns (args: array<Slot>)
    requires IsDirectoryCall(cb)
    ensures fresh(args) && args[..] == Slots(cb, block)
  {
    hide ToWord;
    match cb
    case OpenDir(req, ino, fi) =>
      args := new Slot[3];
      args[0] := Word(req);
      args[1] := Word(ino);
      args[2] := Struct(fi);
    case ReadDir(req, ino, size, off, fi) =>
      args := new Slot[5];
      args[0] := Word(req);
      args[1] := Word(ino);
      args[2] := Word(size);
      args[3] := Word(ToWord(off));
      args[4] := Struct(fi);
    case ReleaseDir(req, ino, fi) =>
      args := new Slot[3];
      args[0] := Word(req);
      args[1] := Word(ino);
      args[2] := Struct(fi);
    case FSyncDir(req, ino, datasync, fi) =>
      args := new Slot[4];
      args[0] := Word(req);
      args[1] := Word(ino);
      args[2] := Word(ToWord(datasync));
      args[3] := Struct(fi);
  }

  method PackAttributes(cb: Callback, block: nat) returns (args: array<Slot>)
    requires FamilyOf(cb) == Metadata && !IsXAttrCall(cb) && !IsLockingCall(cb)
    ensures fresh(args) && args[..] == Slots(cb, block)
  {
    hide ToWord;
    match cb
    case Init(conn) =>
      args := new Slot[1];
      args[0] := Struct(conn);
    case Destroy =>
      args := new Slot[0];
    case GetAttr(req, ino, fi) =>
      args := new Slot[3];
      args[0] := Word(req);
      args[1] := Word(ino);
      args[2] := Struct(fi);
    case SetAttr(req, ino, attr, toSet, fi) =>
      args := new Slot[5];
      args[0] := Word(req);
      args[1] := Word(ino);
      args[2] := Struct(attr);
      args[3] := Word(ToWord(toSet));
      args[4] := Struct(fi);
    case StatFs(req, ino) =>
      args := new Slot[2];
      args[0] := Word(req);
      args[1] := Word(ino);
    case Access(req, ino, mask) =>
      args := new Slot[3];
      args[0] := Word(req);
      args[1] := Word(ino);
      args[2] := Word(ToWord(mask));
  }

  method PackXAttr(cb: Callback, block: nat) returns (args: array<Slot>)
    requires IsXAttrCall(cb)
    ensures fresh(args) && args[..] == Slots(cb, block)
  {
    hide ToWord;
    match cb
    case SetXAttr(req, ino, name, value, size, flags) =>
      args := new Slot[6];
      args[0] := Word(req);
      args[1] := Word(ino);
      args[2] := Str(name);
      args[3] := Str(value);
      args[4] := Word(size);
      args[5] := Word(ToWord(flags));
    case GetXAttr(req, ino, name, size) =>
      args := new Slot[4];
      args[0] := Word(req);
      args[1] := Word(ino);
      args[2] := Str(name);
      args[3] := Word(size);
    case ListXAttr(req, ino, size) =>
      args := new Slot[3];
      args[0] := Word(req);
      args[1] := Word(ino);
      args[2] := Word(size);
    case RemoveXAttr(req, ino, name) =>
      args := new Slot[3];
      args[0] := Word(req);
      args[1] := Word(ino);
      args[2] := Str(name);
  }

  method PackLocking(cb: Callback, block: nat) returns (args: array<Slot>)
    requires IsLockingCall(cb)
    ensures fresh(args) && args[..] == Slots(cb, block)
  {
    hide ToWord;
    match cb
    case GetLock(req, ino, fi, lock) =>
      args := new Slot[4];
      args[0] := Word(req);
      args[1] := Word(ino);
      args[2] := Struct(fi);
      args[3] := Struct(lock);
    case SetLock(req, ino, fi, lock, sleep) =>
      args := new Slot[5];
      args[0] := Word(req);
      args[1] := Word(ino);
      args[2] := Struct(fi);
      args[3] := Struct(lock);
      args[4] := Word(ToWord(sleep));
    case BMap(req, ino, blocksize, idx) =>
      args := new Slot[4];
      args[0] := Word(req);
      args[1] := Word(ino);
      args[2] := Word(blocksize);
      args[3] := Word(idx);
  }

  method Pack(cb: Callback, block: nat) returns (args: array<Slot>)
    ensures fresh(args) && args[..] == Slots(cb, block)
  {
    match FamilyOf(cb)
    case Naming =>
      if IsMakingCall(cb) {
        args := PackMaking(cb, block);
      } else {
        args := PackName(cb, block);
      }
    case Linking => args := PackLinking(cb, block);
    case FileIo =>
      if IsDirectoryCall(cb) {
        args := PackDirectory(cb, block);
      } else {
        args := PackFile(cb, block);
      }
    case Metadata =>
      if IsXAttrCall(cb) {
        args := PackXAttr(cb, block);
      } else if IsLockingCall(cb) {
        args := PackLocking(cb, block);
      } else {
        args := PackAttributes(cb, block);
      }
  }

  // ---- Unpacking ----

  function WordIn(s: seq<Slot>, i: nat): Option<U64> {
    if i < |s| && s[i].Word? then Some(s[i].word) else None
  }

  function StrIn(s: seq<Slot>, i: nat): Option<Text> {
    if i < |s| && s[i].Str? then Some(s[i].text) else None
  }

  function DataIn(s: seq<Slot>, i: nat): Option<seq<Byte>> {
    if i < |s| && s[i].Data? then Some(s[i].bytes) else None
  }

  function StructIn(s: seq<Slot>, i: nat): Option<nat> {
    if i < |s| && s[i].Struct? then Some(s[i].id) else None
  }

  function NameIn(s: seq<Slot>, i: nat, names: map<nat, Text>): Option<Text> {
    if i < |s| && s[i].NameAt? && s[i].block in names then Some(names[s[i].block]) else None
  }

  /** What the handler of `op` reads from an array: None when a slot is missing, has
      another kind, or is a dangling name. */
  function Unpack(op: Op, s: seq<Slot>, names: map<nat, Text>): Option<Callback> {
    match op
    case Forget => None
    case Init =>
      var conn :- StructIn(s, 0);
      Some(Callback.Init(conn))
    case Destroy =>
      Some(Callback.Destroy)
    case Lookup =>
      var req :- WordIn(s, 0);
      var parent :- WordIn(s, 1);
      var name :- NameIn(s, 2, names);
      Some(Callback.Lookup(req, parent, name))
    case GetAttr =>
      var req :- WordIn(s, 0);
      var ino :- WordIn(s, 1);
      var fi :- StructIn(s, 2);
      Some(Callback.GetAttr(req, ino, fi))
    case SetAttr =>
      var req :- WordIn(s, 0);
      var ino :- WordIn(s, 1);
      var attr :- StructIn(s, 2);
      var toSet :- WordIn(s, 3);
      var fi :- StructIn(s, 4);
      Some(Callback.SetAttr(req, ino, attr, ToInt32(ToLong(toSet)), fi))
    case ReadLink =>
      var req :- WordIn(s, 0);
      var ino :- WordIn(s, 1);
      Some(Callback.ReadLink(req, ino))
    case MkNod =>
      var req :- WordIn(s, 0);
      var parent :- WordIn(s, 1);
      var name :- StrIn(s, 2);
      var mode :- WordIn(s, 3);
      var rdev :- WordIn(s, 4);
      Some(Callback.MkNod(req, parent, name, ToUint32(ToLong(mode)), ToWord(ToLong(rdev))))
    case MkDir =>
      var req :- WordIn(s, 0);
      var parent :- WordIn(s, 1);
      var name :- StrIn(s, 2);
      var mode :- WordIn(s, 3);
      Some(Callback.MkDir(req, parent, name, ToUint32(ToLong(mode))))
    case Unlink =>
      var req :- WordIn(s, 0);
      var parent :- WordIn(s, 1);
      var name :- StrIn(s, 2);
      Some(Callback.Unlink(req, parent, name))
    case RmDir =>
      var req :- WordIn(s, 0);
      var parent :- WordIn(s, 1);
      var name :- StrIn(s, 2);
      Some(Callback.RmDir(req, parent, name))
    case SymLink =>
      var req :- WordIn(s, 0);
      var link :- StrIn(s, 1);
      var parent :- WordIn(s, 2);
      var name :- StrIn(s, 3);
      Some(Callback.SymLink(req, link, parent, name))
    case Rename =>
      var req :- WordIn(s, 0);
      var parent :- WordIn(s, 1);
      var name :- StrIn(s, 2);
      var newparent :- WordIn(s, 3);
      var newname :- StrIn(s, 4);
      Some(Callback.Rename(req, parent, name, newparent, newname))
    case Link =>
      var req :- WordIn(s, 0);
      var ino :- WordIn(s, 1);
      var newparent :- WordIn(s, 2);
      var newname :- StrIn(s, 3);
      Some(Callback.Link(req, ino, newparent, newname))
    case Open =>
      var req :- WordIn(s, 0);
      var ino :- WordIn(s, 1);
      var fi :- StructIn(s, 2);
      Some(Callback.Open(req, ino, fi))
    case Read =>
      var req :- WordIn(s, 0);
      var ino :- WordIn(s, 1);
      var size :- WordIn(s, 2);
      var off :- WordIn(s, 3);
      var fi :- StructIn(s, 4);
      Some(Callback.Read(req, ino, ToWord(ToLong(size)), ToLong(off), fi))
    case Write =>
      var req :- WordIn(s, 0);
      var ino :- WordIn(s, 1);
      var buf :- DataIn(s, 2);
      var size :- WordIn(s, 3);
      var off :- WordIn(s, 4);
      var fi :- StructIn(s, 5);
      Some(Callback.Write(req, ino, buf, ToWord(ToLong(size)), ToLong(off), fi))
    case Flush =>
      var req :- WordIn(s, 0);
      var ino :- WordIn(s, 1);
      var fi :- StructIn(s, 2);
      Some(Callback.Flush(req, ino, fi))
    case Release =>
      var req :- WordIn(s, 0);
      var ino :- WordIn(s, 1);
      var fi :- StructIn(s, 2);
      Some(Callback.Release(req, ino, fi))
    case FSync =>
      var req :- WordIn(s, 0);
      var ino :- WordIn(s, 1);
      var datasync :- WordIn(s, 2);
      var fi :- StructIn(s, 3);
      Some(Callback.FSync(req, ino, ToInt32(ToLong(datasync)), fi))
    case OpenDir =>
      var req :- WordIn(s, 0);
      var ino :- WordIn(s, 1);
      var fi :- StructIn(s, 2);
      Some(Callback.OpenDir(req, ino, fi))
    case ReadDir =>
      var req :- WordIn(s, 0);
      var ino :- WordIn(s, 1);
      var size :- WordIn(s, 2);
      var off :- WordIn(s, 3);
      var fi :- StructIn(s, 4);
      Some(Callback.ReadDir(req, ino, ToWord(ToLong(size)), ToLong(off), fi))
    case ReleaseDir =>
      var req :- WordIn(s, 0);
      var ino :- WordIn(s, 1);
      var fi :- StructIn(s, 2);
      Some(Callback.ReleaseDir(req, ino, fi))
    case FSyncDir =>
      var req :- WordIn(s, 0);
      var ino :- WordIn(s, 1);
      var datasync :- WordIn(s, 2);
      var fi :- StructIn(s, 3);
      Some(Callback.FSyncDir(req, ino, ToInt32(ToLong(datasync)), fi))
    case StatFs =>
      var req :- WordIn(s, 0);
      var ino :- WordIn(s, 1);
      Some(Callback.StatFs(req, ino))
    case SetXAttr =>
      var req :- WordIn(s, 0);
      var ino :- WordIn(s, 1);
      var name :- StrIn(s, 2);
      var value :- StrIn(s, 3);
      var size :- WordIn(s, 4);
      var flags :- WordIn(s, 5);
      Some(Callback.SetXAttr(req, ino, name, value, size, ToInt32(ToLong(flags))))
    case GetXAttr =>
      var req :- WordIn(s, 0);
      var ino :- WordIn(s, 1);
      var name :- StrIn(s, 2);
      var size :- WordIn(s, 3);
      Some(Callback.GetXAttr(req, ino, name, size))
    case ListXAttr =>
      var req :- WordIn(s, 0);
      var ino :- WordIn(s, 1);
      var size :- WordIn(s, 2);
      Some(Callback.ListXAttr(req, ino, size))
    case RemoveXAttr =>
      var req :- WordIn(s, 0);
      var ino :- WordIn(s, 1);
      var name :- StrIn(s, 2);
      Some(Callback.RemoveXAttr(req, ino, name))
    case Access =>
      var req :- WordIn(s, 0);
      var ino :- WordIn(s, 1);
      var mask :- WordIn(s, 2);
      Some(Callback.Access(req, ino, ToInt32(ToLong(mask))))
    case Create =>
      var req :- WordIn(s, 0);
      var parent :- WordIn(s, 1);
      var name :- StrIn(s, 2);
      var mode :- WordIn(s, 3);
      var fi :- StructIn(s, 4);
      Some(Callback.Create(req, parent, name, ToUint32(ToLong(mode)), fi))
    case GetLock =>
      var req :- WordIn(s, 0);
      var ino :- WordIn(s, 1);
      var fi :- StructIn(s, 2);
      var lock :- StructIn(s, 3);
      Some(Callback.GetLock(req, ino, fi, lock))
    case SetLock =>
      var req :- WordIn(s, 0);
      var ino :- WordIn(s, 1);
      var fi :- StructIn(s, 2);
      var lock :- StructIn(s, 3);
      var sleep :- WordIn(s, 4);
      Some(Callback.SetLock(req, ino, fi, lock, ToInt32(ToLong(sleep))))
    case BMap =>
      var req :- WordIn(s, 0);
      var ino :- WordIn(s, 1);
      var blocksize :- WordIn(s, 2);
      var idx :- WordIn(s, 3);
      Some(Callback.BMap(req, ino, ToWord(ToLong(blocksize)), idx))
  }

  /** The casts `void *` to `long` to the narrower type give the stored value back. */
  lemma CastsRoundTrip()
    ensures forall x: I32 :: ToInt32(ToLong(ToWord(x))) == x
    ensures forall x: I64 :: ToLong(ToWord(x)) == x
    ensures forall x: U32 :: ToUint32(ToLong(x)) == x
    ensures forall x: U64 :: ToWord(ToLong(x)) == x
  {
  }

  lemma RoundTripNaming(cb: Callback, block: nat, names: map<nat, Text>)
    requires FamilyOf(cb) == Naming
    requires cb.Lookup? ==> block in names && names[block] == cb.name
    ensures Unpack(OpOf(cb), Slots(cb, block), names) == Some(cb)
  {
    CastsRoundTrip();
  }

  lemma RoundTripLinking(cb: Callback, block: nat, names: map<nat, Text>)
    requires FamilyOf(cb) == Linking
    ensures Unpack(OpOf(cb), Slots(cb, block), names) == Some(cb)
  {
    CastsRoundTrip();
  }

  lemma RoundTripFile(cb: Callback, block: nat, names: map<nat, Text>)
    requires FamilyOf(cb) == FileIo && !IsDirectoryCall(cb)
    ensures Unpack(OpOf(cb), Slots(cb, block), names) == Some(cb)
  {
    CastsRoundTrip();
  }

  lemma RoundTripDirectory(cb: Callback, block: nat, names: map<nat, Text>)
    requires IsDirectoryCall(cb)
    ensures Unpack(OpOf(cb), Slots(cb, block), names) == Some(cb)
  {
    CastsRoundTrip();
  }

  lemma RoundTripAttributes(cb: Callback, block: nat, names: map<nat, Text>)
    requires FamilyOf(cb) == Metadata && !IsXAttrCall(cb) && !IsLockingCall(cb)
    ensures Unpack(OpOf(cb), Slots(cb, block), names) == Some(cb)
  {
    CastsRoundTrip();
  }

  lemma RoundTripExtended(cb: Callback, block: nat, names: map<nat, Text>)
    requires IsXAttrCall(cb) || IsLockingCall(cb)
    ensures Unpack(OpOf(cb), Slots(cb, block), names) == Some(cb)
  {
    CastsRoundTrip();
  }

  /** Every handler reads back what the packer of its callback stored. */
  lemma RoundTrip(cb: Callback, block: nat, names: map<nat, Text>)
    requires cb.Lookup? ==> block in names && names[block] == cb.name
    ensures Unpack(OpOf(cb), Slots(cb, block), names) == Some(cb)
  {
    match FamilyOf(cb)
    case Naming => RoundTripNaming(cb, block, names);
    case Linking => RoundTripLinking(cb, block, names);
    case FileIo =>
      if IsDirectoryCall(cb) {
        RoundTripDirectory(cb, block, names);
      } else {
        RoundTripFile(cb, block, names);
      }
    case Metadata =>
      if IsXAttrCall(cb) || IsLockingCall(cb) {
        RoundTripExtended(cb, block, names);
      } else {
        RoundTripAttributes(cb, block, names);
      }
  }

  // ---- JavaScript arguments ----

  datatype JsValue =
    | Undefined
    | Context(of: U64)
    | ConnInfo(conn: nat)
    | Num(n: int)
    | JsStr(str: Text)
    | JsBuffer(data: seq<Byte>, size: U64)
    | Flag(b: bool)
    | AttrsToSet(toSet: I32, attr: nat)
    | FileInfo(fi: nat)
    | LockObject(lock: nat)
    | ReplyObject

  /** How a handler argument is made: by `Number::New`, by `Integer::New`, or without
      a numeric conversion. */
  datatype Argument = ViaNumber(u: U64) | ViaInteger(i: int) | Plain(v: JsValue)

  function Arguments(cb: Callback): seq<Argument> {
    match cb
    case Init(conn) => [Plain(ConnInfo(conn))]
    case Destroy => []
    case Lookup(req, parent, name) => [Plain(Context(req)), ViaNumber(parent), Plain(JsStr(name)), Plain(ReplyObject)]
    case GetAttr(req, ino, _) => [Plain(Context(req)), ViaNumber(ino), Plain(ReplyObject)]
    case SetAttr(req, ino, attr, toSet, _) => [Plain(Context(req)), ViaNumber(ino), Plain(AttrsToSet(toSet, attr)), Plain(ReplyObject)]
    case ReadLink(req, ino) => [Plain(Context(req)), ViaNumber(ino), Plain(ReplyObject)]
    case MkNod(req, parent, name, mode, rdev) => [Plain(Context(req)), ViaNumber(parent), Plain(JsStr(name)), ViaInteger(mode), ViaInteger(rdev), Plain(ReplyObject)]
    case MkDir(req, parent, name, mode) => [Plain(Context(req)), ViaNumber(parent), Plain(JsStr(name)), ViaInteger(mode), Plain(ReplyObject)]
    case Unlink(req, parent, name) => [Plain(Context(req)), ViaNumber(parent), Plain(JsStr(name)), Plain(ReplyObject)]
    case RmDir(req, parent, name) => [Plain(Context(req)), ViaNumber(parent), Plain(JsStr(name)), Plain(ReplyObject)]
    case SymLink(req, link, parent, name) => [Plain(Context(req)), ViaNumber(parent), Plain(JsStr(link)), Plain(JsStr(name)), Plain(ReplyObject)]
    case Rename(req, parent, name, newparent, newname) => [Plain(Context(req)), ViaNumber(parent), Plain(JsStr(name)), ViaNumber(newparent), Plain(JsStr(newname)), Plain(ReplyObject)]
    case Link(req, ino, newparent, newname) => [Plain(Context(req)), ViaNumber(ino), ViaNumber(newparent), Plain(JsStr(newname)), Plain(ReplyObject)]
    case Open(req, ino, fi) => [Plain(Context(req)), ViaNumber(ino), Plain(FileInfo(fi)), Plain(ReplyObject)]
    case Read(req, ino, size, off, fi) => [Plain(Context(req)), ViaNumber(ino), ViaInteger(size), ViaInteger(off), Plain(FileInfo(fi)), Plain(ReplyObject)]
    case Write(req, ino, buf, size, off, fi) => [Plain(Context(req)), ViaNumber(ino), Plain(JsBuffer(buf, size)), ViaInteger(off), Plain(FileInfo(fi)), Plain(ReplyObject)]
    case Flush(req, ino, fi) => [Plain(Context(req)), ViaNumber(ino), Plain(FileInfo(fi)), Plain(ReplyObject)]
    case Release(req, ino, fi) => [Plain(Context(req)), ViaNumber(ino), Plain(FileInfo(fi)), Plain(ReplyObject)]
    case FSync(req, ino, datasync, fi) => [Plain(Context(req)), ViaNumber(ino), Plain(Flag(datasync != 0)), Plain(FileInfo(fi)), Plain(ReplyObject)]
    case OpenDir(req, ino, fi) => [Plain(Context(req)), ViaNumber(ino), Plain(FileInfo(fi)), Plain(ReplyObject)]
    case ReadDir(req, ino, size, off, fi) => [Plain(Context(req)), ViaNumber(ino), ViaInteger(size), ViaInteger(off), Plain(FileInfo(fi)), Plain(ReplyObject)]
    case ReleaseDir(req, ino, fi) => [Plain(Context(req)), ViaNumber(ino), Plain(FileInfo(fi)), Plain(ReplyObject)]
    case FSyncDir(req, ino, datasync, fi) => [Plain(Context(req)), ViaNumber(ino), Plain(Flag(datasync != 0)), Plain(FileInfo(fi)), Plain(ReplyObject)]
    case StatFs(req, ino) => [Plain(Context(req)), ViaNumber(ino), Plain(ReplyObject)]
    case SetXAttr(req, ino, name, value, size, flags) => [Plain(Context(req)), ViaNumber(ino), Plain(JsStr(name)), Plain(JsStr(value)), ViaNumber(size), ViaInteger(flags), Plain(ReplyObject)]
    case GetXAttr(req, ino, name, size) => [Plain(Context(req)), ViaNumber(ino), Plain(JsStr(name)), ViaNumber(size), Plain(ReplyObject)]
    case ListXAttr(req, ino, size) => [Plain(Context(req)), ViaNumber(ino), ViaNumber(size), Plain(ReplyObject)]
    case RemoveXAttr(req, ino, name) => [Plain(Context(req)), ViaNumber(ino), Plain(JsStr(name)), Plain(ReplyObject)]
    case Access(req, ino, mask) => [Plain(Context(req)), ViaNumber(ino), ViaInteger(mask), Plain(ReplyObject)]
    case Create(req, parent, name, mode, fi) => [Plain(Context(req)), ViaNumber(parent), Plain(JsStr(name)), ViaInteger(mode), Plain(FileInfo(fi)), Plain(ReplyObject)]
    case GetLock(req, ino, fi, lock) => [Plain(Context(req)), ViaNumber(ino), Plain(FileInfo(fi)), Plain(LockObject(lock)), Plain(ReplyObject)]
    case SetLock(req, ino, fi, lock, sleep) => [Plain(Context(req)), ViaNumber(ino), Plain(FileInfo(fi)), Plain(LockObject(lock)), ViaInteger(sleep), Plain(ReplyObject)]
    case BMap(req, ino, blocksize, idx) => [Plain(Context(req)), ViaNumber(ino), ViaInteger(blocksize), ViaInteger(idx), Plain(ReplyObject)]
  }

  /** The gap between neighbouring doubles around n, at least `gap`. */
  function Gap(n: U64, gap: nat): (g: nat)
    requires gap > 0
    ensures g > 0
    decreases 0x1_0000_0000_0000_0000 - gap
  {
    if n < TWO_53 * gap || gap >= 4096 then gap else Gap(n, 2 * gap)
  }

  /** Conversion of an unsigned 64-bit integer to a double: round to nearest, ties
      to even. */
  function ToDouble(n: U64): nat {
    var g := Gap(n, 1);
    var r := n % g;
    if 2 * r < g || (2 * r == g && n / g % 2 == 0) then n - r else n - r + g
  }

  const GAPS: set<nat> := {1, 2, 4, 8, 16, 32, 64, 128, 256, 512, 1024, 2048}

  /** The gap is that of the doubles between 2^52 and 2^53 times it, or 1 below. */
  lemma {:induction false} GapFits(n: U64, gap: nat)
    requires gap in GAPS
    requires gap == 1 || 2 * n >= TWO_53 * gap
    ensures
      var g := Gap(n, gap);
      && g in GAPS
      && n < TWO_53 * g && (g == 1 || 2 * n >= TWO_53 * g)
    decreases 4096 - gap
  {
    if n >= TWO_53 * gap {
      GapFits(n, 2 * gap);
    }
  }

  /** The double is the multiple of the gap that is nearest, and of two such the one with an
      even quotient. */
  lemma NearestDouble(n: U64)
    ensures
      var g, d := Gap(n, 1), ToDouble(n);
      && d % g == 0
      && 2 * (if d >= n then d - n else n - d) <= g
      && (2 * (if d >= n then d - n else n - d) == g ==> d / g % 2 == 0)
  {
    hide Gap;
    Multiples(n, Gap(n, 1));
  }

  lemma Multiples(n: nat, g: nat)
    requires g > 0
    ensures (n - n % g) % g == 0 && (n - n % g + g) % g == 0
    ensures (n - n % g) / g == n / g && (n - n % g + g) / g == n / g + 1
  {
    Quotient(n - n % g, n / g, g);
    Quotient(n - n % g + g, n / g + 1, g);
  }

  lemma Quotient(x: nat, q: nat, g: nat)
    requires g > 0 && x == q * g
    ensures x % g == 0 && x / g == q
  {
    DivMod(x, g);
    Difference(q, x / g, g);
    Product(q - x / g, g);
  }

  lemma DivMod(n: nat, g: nat)
    requires g > 0
    ensures n == n / g * g + n % g && n % g < g
  {
  }

  lemma Difference(q: nat, p: nat, g: nat)
    ensures (q - p) * g == q * g - p * g
  {
  }

  lemma Product(d: int, g: nat)
    ensures d >= 1 ==> d * g >= g
    ensures d <= -1 ==> d * g <= 0 - g
    ensures d == 0 ==> d * g == 0
  {
  }

  /** A multiple of the gap around it. */
  predicate OnGrid(n: U64) { n % Gap(n, 1) == 0 }

  lemma ExactDouble(n: U64)
    ensures n < TWO_53 ==> ToDouble(n) == n
    ensures ToDouble(n) == n <==> OnGrid(n)
  {
  }

  function Convert(a: Argument): JsValue {
    match a
    case ViaNumber(u) => Num(ToDouble(u))
    case ViaInteger(i) => Num(ToInt32(i))
    case Plain(v) => v
  }

  function WithoutConversion(a: Argument): JsValue {
    match a
    case ViaNumber(u) => Num(u)
    case ViaInteger(i) => Num(i)
    case Plain(v) => v
  }

  /** The arguments the JavaScript handler is called with. */
  function JsArgs(cb: Callback): seq<JsValue> {
    seq(|Arguments(cb)|, i requires 0 <= i < |Arguments(cb)| => Convert(Arguments(cb)[i]))
  }

  /** The same values without any conversion. */
  function ExactArgs(cb: Callback): seq<JsValue> {
    seq(|Arguments(cb)|, i requires 0 <= i < |Arguments(cb)| => WithoutConversion(Arguments(cb)[i]))
  }

  /** A signed 32-bit integer, or an unsigned one whose last bits are zero where the
      doubles around it leave gaps (no gap below 2^53). */
  predicate Representable(a: Argument) {
    match a
    case ViaNumber(u) => OnGrid(u)
    case ViaInteger(i) => -0x8000_0000 <= i < 0x8000_0000
    case Plain(_) => true
  }

  lemma ConvertExactIff(a: Argument)
    ensures Convert(a) == WithoutConversion(a) <==> Representable(a)
  {
    if a.ViaNumber? {
      ExactDouble(a.u);
    }
  }

  /** The handler sees the callback's own numbers exactly when all are representable. */
  lemma JsArgsExactIff(cb: Callback)
    ensures JsArgs(cb) == ExactArgs(cb) <==>
      forall i :: 0 <= i < |Arguments(cb)| ==> Representable(Arguments(cb)[i])
  {
    var args := Arguments(cb);
    forall i | 0 <= i < |args|
      ensures JsArgs(cb)[i] == ExactArgs(cb)[i] <==> Representable(args[i])
    {
      ConvertExactIff(args[i]);
    }
    if JsArgs(cb) == ExactArgs(cb) {
      forall i | 0 <= i < |args|
        ensures Representable(args[i])
      {
        assert JsArgs(cb)[i] == ExactArgs(cb)[i];
      }
    }
  }
}
