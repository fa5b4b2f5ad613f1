/** The parameter lists of the NodeFS handlers, by name, and the argument vectors of the
    binding: the i-th argument is the callback's own field that the i-th parameter names. */
module Signatures {
  import opened Numbers
  import opened Marshalling

  datatype Name =
    | RequestContext | ConnInfoName | Parent | Inode | NewParent | EntryName | NewName | LinkName
    | Attrs | Mode | RDev | FileInfoName | Size | Offset | BufferName | DataSync | ValueName | Flags
    | Position | Mask | LockName | SleepName | BlockSize | Index | NLookup | ReplyName

  /** The parameters of each handler, in order. */
  function Signature(op: Op): seq<Name> {
    match op
    case Init => [ConnInfoName]
    case Destroy => []
    case Lookup => [RequestContext, Parent, EntryName, ReplyName]
    case Forget => [RequestContext, Inode, NLookup]
    case GetAttr => [RequestContext, Inode, ReplyName]
    case SetAttr => [RequestContext, Inode, Attrs, ReplyName]
    case MkNod => [RequestContext, Parent, EntryName, Mode, RDev, ReplyName]
    case MkDir => [RequestContext, Parent, EntryName, Mode, ReplyName]
    case Unlink => [RequestContext, Parent, EntryName, ReplyName]
    case RmDir => [RequestContext, Parent, EntryName, ReplyName]
    case Link => [RequestContext, Inode, NewParent, NewName, ReplyName]
    case SymLink => [RequestContext, Parent, LinkName, EntryName, ReplyName]
    case ReadLink => [RequestContext, Inode, ReplyName]
    case Rename => [RequestContext, Parent, EntryName, NewParent, NewName, ReplyName]
    case Open => [RequestContext, Inode, FileInfoName, ReplyName]
    case Read => [RequestContext, Inode, Size, Offset, FileInfoName, ReplyName]
    case Write => [RequestContext, Inode, BufferName, Offset, FileInfoName, ReplyName]
    case Flush => [RequestContext, Inode, FileInfoName, ReplyName]
    case Release => [RequestContext, Inode, FileInfoName, ReplyName]
    case FSync => [RequestContext, Inode, DataSync, FileInfoName, ReplyName]
    case OpenDir => [RequestContext, Inode, FileInfoName, ReplyName]
    case ReadDir => [RequestContext, Inode, Size, Offset, FileInfoName, ReplyName]
    case ReleaseDir => [RequestContext, Inode, FileInfoName, ReplyName]
    case FSyncDir => [RequestContext, Inode, DataSync, FileInfoName, ReplyName]
    case StatFs => [RequestContext, Inode, ReplyName]
    case SetXAttr => [RequestContext, Inode, EntryName, ValueName, Size, Flags, Position, ReplyName]
    case GetXAttr => [RequestContext, Inode, EntryName, Size, Position, ReplyName]
    case ListXAttr => [RequestContext, Inode, Size, ReplyName]
    case RemoveXAttr => [RequestContext, Inode, EntryName, ReplyName]
    case Access => [RequestContext, Inode, Mask, ReplyName]
    case Create => [RequestContext, Parent, EntryName, Mode, FileInfoName, ReplyName]
    case GetLock => [RequestContext, Inode, FileInfoName, LockName, ReplyName]
    case SetLock => [RequestContext, Inode, FileInfoName, LockName, SleepName, ReplyName]
    case BMap => [RequestContext, Inode, BlockSize, Index, ReplyName]
  }

  /** The callback's field behind a parameter name, as a number where it is one. The
      binding passes no position: its reply object stands there. */
  function FieldOf(cb: Callback, name: Name): JsValue {
    match name
    case RequestContext => if cb.Init? || cb.Destroy? then Undefined else JsValue.Context(cb.req)
    case ConnInfoName => if cb.Init? then ConnInfo(cb.conn) else Undefined
    case Parent =>
      if cb.Lookup? || cb.MkNod? || cb.MkDir? || cb.Unlink? || cb.RmDir? || cb.SymLink? || cb.Rename? || cb.Create?
      then Num(cb.parent) else Undefined
    case Inode => if HasInode(cb) then Num(cb.ino) else Undefined
    case NewParent => if cb.Rename? || cb.Link? then Num(cb.newparent) else Undefined
    case EntryName =>
      if cb.Lookup? || cb.MkNod? || cb.MkDir? || cb.Unlink? || cb.RmDir? || cb.SymLink? || cb.Rename? || cb.Create?
        || cb.SetXAttr? || cb.GetXAttr? || cb.RemoveXAttr?
      then JsStr(cb.name) else Undefined
    case NewName => if cb.Rename? || cb.Link? then JsStr(cb.newname) else Undefined
    case LinkName => if cb.SymLink? then JsStr(cb.link) else Undefined
    case Attrs => if cb.SetAttr? then AttrsToSet(cb.toSet, cb.attr) else Undefined
    case Mode => if cb.MkNod? || cb.MkDir? || cb.Create? then Num(cb.mode) else Undefined
    case RDev => if cb.MkNod? then Num(cb.rdev) else Undefined
    case FileInfoName => if HasFileInfo(cb) then FileInfo(cb.fi) else Undefined
    case Size =>
      if cb.Read? || cb.ReadDir? || cb.SetXAttr? || cb.GetXAttr? || cb.ListXAttr? then Num(cb.size) else Undefined
    case Offset => if cb.Read? || cb.ReadDir? || cb.Write? then Num(cb.off) else Undefined
    case BufferName => if cb.Write? then JsBuffer(cb.buf, cb.size) else Undefined
    case DataSync => if cb.FSync? || cb.FSyncDir? then Flag(cb.datasync != 0) else Undefined
    case ValueName => if cb.SetXAttr? then JsStr(cb.value) else Undefined
    case Flags => if cb.SetXAttr? then Num(cb.flags) else Undefined
    case Position => ReplyObject
    case Mask => if cb.Access? then Num(cb.mask) else Undefined
    case LockName => if cb.GetLock? || cb.SetLock? then LockObject(cb.lock) else Undefined
    case SleepName => if cb.SetLock? then Num(cb.sleep) else Undefined
    case BlockSize => if cb.BMap? then Num(cb.blocksize) else Undefined
    case Index => if cb.BMap? then Num(cb.idx) else Undefined
    case NLookup => Undefined
    case ReplyName => ReplyObject
  }

  predicate HasInode(cb: Callback) {
    cb.GetAttr? || cb.SetAttr? || cb.ReadLink? || cb.Link? || cb.Open? || cb.Read? || cb.Write? || cb.Flush?
    || cb.Release? || cb.FSync? || cb.OpenDir? || cb.ReadDir? || cb.ReleaseDir? || cb.FSyncDir? || cb.StatFs?
    || cb.SetXAttr? || cb.GetXAttr? || cb.ListXAttr? || cb.RemoveXAttr? || cb.Access? || cb.GetLock? || cb.SetLock?
    || cb.BMap?
  }

  predicate HasFileInfo(cb: Callback) {
    cb.Open? || cb.Read? || cb.Write? || cb.Flush? || cb.Release? || cb.FSync? || cb.OpenDir? || cb.ReadDir?
    || cb.ReleaseDir? || cb.FSyncDir? || cb.Create? || cb.GetLock? || cb.SetLock?
  }

  /** The parameters the binding fills: all of them, but for the last one of setxattr and
      getxattr. */
  function Filled(op: Op): seq<Name> {
    var all := Signature(op);
    if op.SetXAttr? || op.GetXAttr? then all[..|all| - 1] else all
  }

  /** The inodes and the sizes of extended attributes become doubles, the other numbers
      32-bit integers. */
  predicate IsDouble(cb: Callback, name: Name) {
    name == Parent || name == Inode || name == NewParent
    || (name == Size && (cb.SetXAttr? || cb.GetXAttr? || cb.ListXAttr?))
  }

  predicate IsWord(n: int) { 0 <= n < 0x1_0000_0000_0000_0000 }

  function ConvertedValue(v: JsValue, double: bool): JsValue {
    if !v.Num? then v
    else if double && IsWord(v.n) then Num(ToDouble(v.n))
    else Num(ToInt32(v.n))
  }

  function Converted(cb: Callback, name: Name): JsValue {
    ConvertedValue(FieldOf(cb, name), IsDouble(cb, name))
  }

  /** The vector of the callback's own fields in the order of the handler's signature. */
  function Fields(cb: Callback): seq<JsValue> {
    seq(|Filled(OpOf(cb))|, i requires 0 <= i < |Filled(OpOf(cb))| => FieldOf(cb, Filled(OpOf(cb))[i]))
  }

  function ConvertedFields(cb: Callback): seq<JsValue> {
    seq(|Filled(OpOf(cb))|, i requires 0 <= i < |Filled(OpOf(cb))| => Converted(cb, Filled(OpOf(cb))[i]))
  }

  /** The numbers a callback passes are exact in JavaScript: no inode or attribute size
      falls between two doubles, and the other numbers fit 32 bits. */
  predicate ExactValue(v: JsValue, double: bool) {
    v.Num? ==> if double && IsWord(v.n) then OnGrid(v.n) else -0x8000_0000 <= v.n < 0x8000_0000
  }

  predicate Exact(cb: Callback, name: Name) {
    ExactValue(FieldOf(cb, name), IsDouble(cb, name))
  }

  /** The i-th argument is made from the field that the i-th parameter names. */
  ghost predicate Matches(cb: Callback, i: nat) {
    && |Arguments(cb)| == |Filled(OpOf(cb))|
    && (i < |Arguments(cb)| ==>
      var name := Filled(OpOf(cb))[i];
      match Arguments(cb)[i]
      case ViaNumber(u) => FieldOf(cb, name) == Num(u) && IsDouble(cb, name)
      case ViaInteger(n) => FieldOf(cb, name) == Num(n) && !IsDouble(cb, name)
      case Plain(v) => FieldOf(cb, name) == v && !v.Num?)
  }

  lemma NamingMatches(cb: Callback, i: nat)
    requires FamilyOf(cb).Naming? && !IsMakingCall(cb)
    ensures Matches(cb, i)
  {
  }

  lemma MakingMatches(cb: Callback, i: nat)
    requires IsMakingCall(cb)
    ensures Matches(cb, i)
  {
  }

  lemma LinkingMatches(cb: Callback, i: nat)
    requires FamilyOf(cb).Linking?
    ensures Matches(cb, i)
  {
  }

  lemma TransferMatches(cb: Callback, i: nat)
    requires cb.Read? || cb.Write?
    ensures Matches(cb, i)
  {
  }

  lemma FileMatches(cb: Callback, i: nat)
    requires FamilyOf(cb).FileIo? && !IsDirectoryCall(cb) && !cb.Read? && !cb.Write?
    ensures Matches(cb, i)
  {
  }

  lemma ReadDirMatches(cb: Callback, i: nat)
    requires cb.ReadDir?
    ensures Matches(cb, i)
  {
  }

  lemma DirectoryMatches(cb: Callback, i: nat)
    requires IsDirectoryCall(cb) && !cb.ReadDir?
    ensures Matches(cb, i)
  {
  }

  lemma AttributesMatch(cb: Callback, i: nat)
    requires FamilyOf(cb).Metadata? && !IsXAttrCall(cb) && !IsLockingCall(cb)
    ensures Matches(cb, i)
  {
  }

  lemma SetXAttrMatches(cb: Callback, i: nat)
    requires cb.SetXAttr?
    ensures Matches(cb, i)
  {
  }

  lemma XAttrMatches(cb: Callback, i: nat)
    requires IsXAttrCall(cb) && !cb.SetXAttr?
    ensures Matches(cb, i)
  {
  }

  lemma SetLockMatches(cb: Callback, i: nat)
    requires cb.SetLock?
    ensures Matches(cb, i)
  {
  }

  lemma LockingMatches(cb: Callback, i: nat)
    requires cb.GetLock? || cb.BMap?
    ensures Matches(cb, i)
  {
  }

  lemma AllMatch(cb: Callback, i: nat)
    ensures Matches(cb, i)
  {
    hide Matches;
    match FamilyOf(cb)
    case Naming =>
      if IsMakingCall(cb) {
        MakingMatches(cb, i);
      } else {
        NamingMatches(cb, i);
      }
    case Linking => LinkingMatches(cb, i);
    case FileIo =>
      if IsDirectoryCall(cb) {
        if cb.ReadDir? {
          ReadDirMatches(cb, i);
        } else {
          DirectoryMatches(cb, i);
        }
      } else if cb.Read? || cb.Write? {
        TransferMatches(cb, i);
      } else {
        FileMatches(cb, i);
      }
    case Metadata =>
      if IsXAttrCall(cb) {
        if cb.SetXAttr? {
          SetXAttrMatches(cb, i);
        } else {
          XAttrMatches(cb, i);
        }
      } else if IsLockingCall(cb) {
        if cb.SetLock? {
          SetLockMatches(cb, i);
        } else {
          LockingMatches(cb, i);
        }
      } else {
        AttributesMatch(cb, i);
      }
  }

  /** Every handler is called with its callback's own fields, each under the parameter that
      names it, inodes and attribute sizes as doubles and other numbers as 32-bit
      integers. */
  lemma ArgumentsBySignature(cb: Callback)
    ensures JsArgs(cb) == ConvertedFields(cb)
    ensures ExactArgs(cb) == Fields(cb)
  {
    hide Arguments, Filled, FieldOf, IsDouble, ToDouble, ToInt32;
    AllMatch(cb, 0);
    forall i: nat | i < |Arguments(cb)|
      ensures JsArgs(cb)[i] == ConvertedFields(cb)[i] && ExactArgs(cb)[i] == Fields(cb)[i]
    {
      AllMatch(cb, i);
    }
  }

  /** The handler sees its callback's own numbers exactly when all of them are exact. */
  lemma ExactBySignature(cb: Callback)
    ensures JsArgs(cb) == Fields(cb) <==>
      forall i :: 0 <= i < |Filled(OpOf(cb))| ==> Exact(cb, Filled(OpOf(cb))[i])
  {
    hide JsArgs, ExactArgs, Filled, FieldOf, IsDouble, ExactValue, ConvertedValue;
    ArgumentsBySignature(cb);
    var names := Filled(OpOf(cb));
    forall i | 0 <= i < |names|
      ensures ConvertedFields(cb)[i] == Fields(cb)[i] <==> Exact(cb, names[i])
    {
      ConvertedIff(FieldOf(cb, names[i]), IsDouble(cb, names[i]));
    }
    if JsArgs(cb) == Fields(cb) {
      forall i | 0 <= i < |names|
        ensures Exact(cb, names[i])
      {
        assert ConvertedFields(cb)[i] == Fields(cb)[i];
      }
    }
  }

  lemma ConvertedIff(v: JsValue, double: bool)
    ensures ConvertedValue(v, double) == v <==> ExactValue(v, double)
  {
    hide OnGrid, ToDouble;
    if v.Num? && IsWord(v.n) {
      ExactDouble(v.n);
    }
  }
}
