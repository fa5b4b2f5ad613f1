/** The Reply object handed to a handler: the calls it makes to libfuse, and the
    directory buffer it fills in place. */
module Replies {
  import opened Numbers
  import opened Marshalling
  import opened Dirents

  // ---- Stats ----

  /** A JavaScript stats object. `fs` makes none with an `inode` property; a handler may
      add one. */
  datatype Stats = Stats(mode: U32, inode: Option<int>)

  /** The fields of a `struct stat` that matter here. */
  datatype StatBuf = StatBuf(ino: U64, mode: U32)

  /** ObjectToStat: an undefined property converts to 0. */
  function ObjectToStat(s: Stats): StatBuf {
    StatBuf(if s.inode.Some? then ToWord(s.inode.value) else 0, s.mode)
  }

  // ---- Replies ----

  /** One call of a `fuse_reply_*` function on the request. */
  datatype Msg =
    | Entry(inode: nat, stat: StatBuf)
    | Attr(stat: StatBuf)
    | Created(inode: nat, stat: StatBuf)
    | Err(code: int)
    | Opened
    | Buf(bytes: Bytes)
    | Written(count: nat)
    | Xattr(size: nat)
    | LinkTarget(target: Text)
    | Statistics

  /** A C string stops at its first NUL. */
  function CString(bs: Bytes): (r: Bytes)
    ensures r <= bs
    ensures forall i :: 0 <= i < |r| ==> r[i] != 0
    ensures |r| < |bs| ==> bs[|r|] == 0
  {
    if bs == [] || bs[0] == 0 then [] else [bs[0]] + CString(bs[1..])
  }

  /** The file type bits of a mode, as the record stores them: the four bits above the
      lower twelve. */
  function KindOf(mode: U32): (kind: U32)
    ensures kind < 16 && mode % 0x1_0000 == kind * 0x1000 + mode % 0x1000
  {
    mode / 0x1000 % 16
  }

  /** Subtraction of `size_t` values, modulo 2^64. */
  function SizeMinus(a: U64, b: U64): U64 {
    if b <= a then a - b else a - b + 0x1_0000_0000_0000_0000
  }

  /** The record for one call of `addDirEntry`. */
  function NewDirent(name: Utf8, stats: Stats, offset: U64): Dirent {
    var buf := ObjectToStat(stats);
    Dirent(buf.ino, offset, KindOf(buf.mode), CString(name))
  }

  /** `fuse_add_direntry` by libfuse's contract, with a concrete writer: the record is
      written only when it fits the room. */
  method FuseAddDirentry(buffer: array<Byte>, at: nat, room: nat, d: Dirent)
    requires at <= buffer.Length
    requires RecordSize(|d.name|) <= room ==> at + RecordSize(|d.name|) <= buffer.Length
    modifies buffer
    ensures buffer[..] ==
      var len := RecordSize(|d.name|);
      if len <= room then old(buffer[..at]) + Serialize(d) + old(buffer[at + len..]) else old(buffer[..])
  {
    var len := RecordSize(|d.name|);
    if len <= room {
      var record := Serialize(d);
      var i := 0;
      while i < len
        invariant 0 <= i <= len
        invariant buffer[..at] == old(buffer[..at])
        invariant buffer[at..at + i] == record[..i]
        invariant buffer[at + len..] == old(buffer[at + len..])
      {
        buffer[at + i] := record[i];
        assert buffer[at..at + i + 1] == buffer[at..at + i] + [record[i]];
        i := i + 1;
      }
      assert record[..i] == record;
      assert buffer[..] == buffer[..at] + buffer[at..at + len] + buffer[at + len..];
    }
  }

  /** One more record behind the accumulated ones. */
  lemma Filled(before: Bytes, after: Bytes, accSize: nat, room: nat, kept: seq<Dirent>, d: Dirent)
    requires accSize <= |before| && before[..accSize] == SerializeAll(kept)
    requires RecordSize(|d.name|) <= room ==> accSize + RecordSize(|d.name|) <= |before|
    requires
      var len := RecordSize(|d.name|);
      after == if len <= room then before[..accSize] + Serialize(d) + before[accSize + len..] else before
    ensures |after| == |before| && after[..accSize] == before[..accSize]
    ensures
      var len := RecordSize(|d.name|);
      len <= room ==> after[..accSize + len] == SerializeAll(kept + [d])
  {
    SerializeAppend(kept, d);
    var len := RecordSize(|d.name|);
    if len <= room {
      assert after[..accSize + len] == before[..accSize] + Serialize(d);
    }
  }

  lemma EmptyIff(ds: seq<Dirent>)
    ensures |SerializeAll(ds)| > 0 <==> ds != []
  {
    if ds != [] {
      assert |Serialize(ds[0])| >= HEADER;
    }
  }

  class Reply {
    var dentryAccSize: nat
    var dentryCurLength: nat
    var dentryBuffer: array?<Byte>
    /** The replies sent so far on this request. */
    var sent: seq<Msg>
    /** The entries accumulated in the buffer. */
    ghost var kept: seq<Dirent>

    ghost predicate Valid()
      reads this, dentryBuffer
    {
      && dentryCurLength == |kept|
      && dentryAccSize == |SerializeAll(kept)|
      && (dentryBuffer == null ==> kept == [])
      && (dentryBuffer != null ==>
        && dentryBuffer.Length < 0x1_0000_0000_0000_0000
        && dentryAccSize <= dentryBuffer.Length && dentryBuffer[..dentryAccSize] == SerializeAll(kept))
    }

    constructor ()
      ensures Valid() && dentryBuffer == null && sent == [] && kept == []
    {
      dentryAccSize, dentryCurLength, dentryBuffer := 0, 0, null;
      sent, kept := [], [];
    }

    /** The allocation on the first entry; `allocates` is whether malloc succeeds. */
    method Allocate(requestedSize: U64, allocates: bool)
      requires Valid()
      modifies this`dentryBuffer
      ensures Valid()
      ensures
        if old(dentryBuffer) != null then dentryBuffer == old(dentryBuffer)
        else if allocates then dentryBuffer != null && fresh(dentryBuffer) && dentryBuffer.Length == requestedSize
        else dentryBuffer == null
    {
      if dentryBuffer == null && allocates {
        dentryBuffer := new Byte[requestedSize](_ => 0);
        assert dentryBuffer[..0] == [];
      }
    }

    /** `addDirEntry`, with any requested size. It crashes exactly when libfuse finds room
        for the record by the size named in this call, but the record would lie outside
        the buffer; with one requested size in all calls this takes a failed allocation. */
    method AddDirEntry(name: Utf8, requestedSize: U64, stats: Stats, offset: U64, allocates: bool)
        returns (crashed: bool)
      requires Valid()
      modifies this, dentryBuffer
      ensures Valid()
      ensures
        if old(dentryBuffer) != null then dentryBuffer == old(dentryBuffer)
        else if allocates then dentryBuffer != null && fresh(dentryBuffer) && dentryBuffer.Length == requestedSize
        else dentryBuffer == null
      ensures
        var d := NewDirent(name, stats, offset);
        var finds := RecordSize(|d.name|) <= SizeMinus(requestedSize, old(dentryAccSize));
        && crashed == (finds && (dentryBuffer == null || !Fits(old(kept), d, dentryBuffer.Length)))
        && kept == (if finds && !crashed then old(kept) + [d] else old(kept))
        && sent == (if finds then old(sent) else old(sent) + [Buf([])])
      ensures old(dentryBuffer) == null || requestedSize == old(dentryBuffer.Length) ==>
        var d := NewDirent(name, stats, offset);
        && (crashed ==> dentryBuffer == null && Fits(old(kept), d, requestedSize))
        && (!crashed ==> kept == Offer(old(kept), d, requestedSize))
        && (dentryBuffer != null ==> !crashed && dentryAccSize <= requestedSize)
      ensures dentryBuffer != null && dentryBuffer == old(dentryBuffer) ==>
        dentryBuffer[..old(dentryAccSize)] == old(dentryBuffer[..dentryAccSize])
    {
      Allocate(requestedSize, allocates);
      var accSize := dentryAccSize;
      var d := NewDirent(name, stats, offset);
      var room := SizeMinus(requestedSize, accSize);
      var len := RecordSize(|d.name|);
      if len <= room && (dentryBuffer == null || accSize + len > dentryBuffer.Length) {
        return true;
      }
      crashed := false;
      if dentryBuffer != null {
        var before := dentryBuffer[..];
        FuseAddDirentry(dentryBuffer, accSize, room, d);
        Filled(before, dentryBuffer[..], accSize, room, kept, d);
        assert dentryBuffer[..accSize] == dentryBuffer[..][..accSize];
      }
      if len > room {
        sent := sent + [Buf([])];
        return;
      }
      assert dentryBuffer[..accSize + len] == dentryBuffer[..][..accSize + len];
      kept := kept + [d];
      dentryAccSize := dentryAccSize + len;
      dentryCurLength := dentryCurLength + 1;
    }

    /** `buffer`: the accumulated records if there are any, else the data. */
    method Buffer(data: Bytes)
      requires Valid()
      modifies this
      ensures Valid()
      ensures unchanged(this`dentryBuffer) && unchanged(this`dentryAccSize) && unchanged(this`kept)
      ensures sent == old(sent) + [Buf(if kept == [] then data else SerializeAll(kept))]
    {
      EmptyIff(kept);
      if dentryAccSize > 0 {
        sent := sent + [Buf(dentryBuffer[..dentryAccSize])];
      } else {
        sent := sent + [Buf(data)];
      }
    }

    /** The other reply functions only forward one message. */
    method Send(m: Msg)
      modifies this`sent
      ensures sent == old(sent) + [m]
    {
      sent := sent + [m];
    }
  }
}
