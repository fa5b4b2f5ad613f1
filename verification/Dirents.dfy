/** Directory records as the kernel reads them, and the greedy filling of a buffer. */
module Dirents {
  import opened Numbers

  type Bytes = seq<Byte>

  /** A JavaScript string in UTF-8: V8 strings stay below 2^30 code units, and each takes
      at most three bytes. */
  type Utf8 = bs: Bytes | |bs| < 0x1_0000_0000

  datatype Dirent = Dirent(ino: U64, off: U64, kind: U32, name: Bytes)

  // ---- Little-endian fields ----

  /** The n low-order bytes of v. */
  function LittleEndian(n: nat, v: nat): (bs: Bytes)
    ensures |bs| == n
  {
    if n == 0 then [] else [v % 256] + LittleEndian(n - 1, v / 256)
  }

  function FromLittleEndian(bs: Bytes): nat {
    if bs == [] then 0 else bs[0] + 256 * FromLittleEndian(bs[1..])
  }

  function Pow256(n: nat): nat { if n == 0 then 1 else 256 * Pow256(n - 1) }

  lemma {:induction false} LittleEndianRoundTrip(n: nat, v: nat)
    requires v < Pow256(n)
    ensures FromLittleEndian(LittleEndian(n, v)) == v
  {
    if n > 0 {
      LittleEndianRoundTrip(n - 1, v / 256);
      assert LittleEndian(n, v)[1..] == LittleEndian(n - 1, v / 256);
    }
  }

  lemma FieldWidths()
    ensures Pow256(4) == 0x1_0000_0000 && Pow256(8) == 0x1_0000_0000_0000_0000
  {
    assert Pow256(4) == 256 * (256 * (256 * (256 * Pow256(0))));
    assert Pow256(8) == 256 * (256 * (256 * (256 * Pow256(4))));
  }

  // ---- One record ----

  const HEADER: nat := 24

  /** Header plus name, padded to a multiple of eight. */
  function RecordSize(nameLength: nat): (r: nat)
    ensures HEADER + nameLength <= r < HEADER + nameLength + 8
    ensures r % 8 == 0
  {
    (HEADER + nameLength + 7) / 8 * 8
  }

  function Zeros(n: nat): (bs: Bytes)
    ensures |bs| == n
  {
    seq(n, _ => 0)
  }

  function Header(d: Dirent): (bs: Bytes)
    ensures |bs| == HEADER
  {
    LittleEndian(8, d.ino) + LittleEndian(8, d.off) + LittleEndian(4, |d.name|) + LittleEndian(4, d.kind)
  }

  function Serialize(d: Dirent): (bs: Bytes)
    ensures |bs| == RecordSize(|d.name|)
  {
    Header(d) + d.name + Zeros(RecordSize(|d.name|) - HEADER - |d.name|)
  }

  /** The record at the front of a buffer of at least HEADER bytes. */
  function NameLength(bs: Bytes): nat
    requires |bs| >= HEADER
  {
    FromLittleEndian(bs[16..20])
  }

  /** The kernel's walk over a reply: record by record while a whole record is there. */
  function Decode(bs: Bytes): seq<Dirent>
    decreases |bs|
  {
    if |bs| < HEADER || |bs| < RecordSize(NameLength(bs)) then [] else
      var n := NameLength(bs);
      [FrontRecord(bs, n)] + Decode(bs[RecordSize(n)..])
  }

  function FrontRecord(bs: Bytes, n: nat): Dirent
    requires |bs| >= RecordSize(n)
  {
    Dirent(ToWord(FromLittleEndian(bs[..8])), ToWord(FromLittleEndian(bs[8..16])),
           ToUint32(FromLittleEndian(bs[20..24])), bs[24..24 + n])
  }

  /** Names of at most 2^32 - 1 bytes fit the namelen field. */
  predicate Encodable(d: Dirent) { |d.name| < 0x1_0000_0000 }

  lemma HeaderFields(d: Dirent, rest: Bytes)
    requires Encodable(d)
    ensures
      var bs := Header(d) + rest;
      && FromLittleEndian(bs[..8]) == d.ino
      && FromLittleEndian(bs[8..16]) == d.off
      && FromLittleEndian(bs[16..20]) == |d.name|
      && FromLittleEndian(bs[20..24]) == d.kind
  {
    FieldWidths();
    var bs := Header(d) + rest;
    assert bs[..8] == LittleEndian(8, d.ino);
    assert bs[8..16] == LittleEndian(8, d.off);
    assert bs[16..20] == LittleEndian(4, |d.name|);
    assert bs[20..24] == LittleEndian(4, d.kind);
    LittleEndianRoundTrip(8, d.ino);
    LittleEndianRoundTrip(8, d.off);
    LittleEndianRoundTrip(4, |d.name|);
    LittleEndianRoundTrip(4, d.kind);
  }

  /** The record at the front of a buffer that starts with d's header and name. */
  lemma FrontIs(d: Dirent, tail: Bytes)
    requires Encodable(d) && HEADER + |d.name| + |tail| >= RecordSize(|d.name|)
    ensures NameLength(Header(d) + (d.name + tail)) == |d.name|
    ensures FrontRecord(Header(d) + (d.name + tail), |d.name|) == d
  {
    HeaderFields(d, d.name + tail);
    assert (Header(d) + (d.name + tail))[24..24 + |d.name|] == d.name;
  }

  lemma DecodeFront(d: Dirent, rest: Bytes)
    requires Encodable(d)
    ensures Decode(Serialize(d) + rest) == [d] + Decode(rest)
  {
    var n := |d.name|;
    var pad := Zeros(RecordSize(n) - HEADER - n);
    FrontIs(d, pad + rest);
    DecodeStep(Header(d) + (d.name + (pad + rest)), d, rest);
    assert Serialize(d) + rest == Header(d) + (d.name + (pad + rest));
  }

  lemma DecodeStep(bs: Bytes, d: Dirent, rest: Bytes)
    requires |bs| >= RecordSize(|d.name|) && NameLength(bs) == |d.name|
    requires FrontRecord(bs, |d.name|) == d && bs[RecordSize(|d.name|)..] == rest
    ensures Decode(bs) == [d] + Decode(rest)
  {
  }

  // ---- Sequences of records ----

  function SerializeAll(ds: seq<Dirent>): (bs: Bytes)
  {
    if ds == [] then [] else Serialize(ds[0]) + SerializeAll(ds[1..])
  }

  lemma {:induction false} SerializeAppend(ds: seq<Dirent>, d: Dirent)
    ensures SerializeAll(ds + [d]) == SerializeAll(ds) + Serialize(d)
  {
    if ds == [] {
      assert [d][1..] == [];
    } else {
      assert (ds + [d])[1..] == ds[1..] + [d];
      SerializeAppend(ds[1..], d);
    }
  }

  /** Reading back what was written gives the same records in the same order. */
  lemma {:induction false} DecodeRoundTrip(ds: seq<Dirent>)
    requires forall i :: 0 <= i < |ds| ==> Encodable(ds[i])
    ensures Decode(SerializeAll(ds)) == ds
  {
    if ds != [] {
      DecodeRoundTrip(ds[1..]);
      DecodeFront(ds[0], SerializeAll(ds[1..]));
    }
  }

  function TotalSize(ds: seq<Dirent>): nat {
    if ds == [] then 0 else TotalSize(ds[..|ds| - 1]) + RecordSize(|ds[|ds| - 1].name|)
  }

  lemma {:induction false} TotalSizeIsLength(ds: seq<Dirent>)
    ensures |SerializeAll(ds)| == TotalSize(ds)
  {
    if ds != [] {
      var front, last := ds[..|ds| - 1], ds[|ds| - 1];
      assert ds == front + [last];
      SerializeAppend(front, last);
      TotalSizeIsLength(front);
    }
  }

  // ---- Filling a buffer ----

  predicate Fits(kept: seq<Dirent>, d: Dirent, size: nat) {
    |SerializeAll(kept)| + RecordSize(|d.name|) <= size
  }

  /** One more entry offered to a buffer of `size` bytes: kept exactly when it fits
      what is left. */
  function Offer(kept: seq<Dirent>, d: Dirent, size: nat): seq<Dirent> {
    if Fits(kept, d, size) then kept + [d] else kept
  }

  /** Entries offered one after the other; a rejected one does not stop later ones. */
  function Accepted(ds: seq<Dirent>, size: nat): seq<Dirent> {
    if ds == [] then [] else Offer(Accepted(ds[..|ds| - 1], size), ds[|ds| - 1], size)
  }

  lemma AcceptedAppend(ds: seq<Dirent>, d: Dirent, size: nat)
    ensures Accepted(ds + [d], size) == Offer(Accepted(ds, size), d, size)
  {
    assert (ds + [d])[..|ds|] == ds;
  }

  lemma {:induction false} AcceptedBounds(ds: seq<Dirent>, size: nat)
    ensures |Accepted(ds, size)| <= |ds|
    ensures |SerializeAll(Accepted(ds, size))| <= size
  {
    if ds != [] {
      AcceptedBounds(ds[..|ds| - 1], size);
      SerializeAppend(Accepted(ds[..|ds| - 1], size), ds[|ds| - 1]);
    }
  }

  function Rejections(ds: seq<Dirent>, size: nat): nat {
    AcceptedBounds(ds, size);
    |ds| - |Accepted(ds, size)|
  }

  /** Nothing is rejected exactly when the records fit together, and then all are kept. */
  lemma {:induction false} AllAcceptedIff(ds: seq<Dirent>, size: nat)
    ensures Rejections(ds, size) == 0 <==> TotalSize(ds) <= size
    ensures Rejections(ds, size) == 0 <==> Accepted(ds, size) == ds
  {
    if ds != [] {
      var front, last := ds[..|ds| - 1], ds[|ds| - 1];
      AllAcceptedIff(front, size);
      AcceptedBounds(front, size);
      TotalSizeIsLength(front);
      assert ds == front + [last];
    }
  }

  ghost predicate AllEncodable(ds: seq<Dirent>) { forall i :: 0 <= i < |ds| ==> Encodable(ds[i]) }

  lemma {:induction false} AcceptedEncodable(ds: seq<Dirent>, size: nat)
    requires AllEncodable(ds)
    ensures AllEncodable(Accepted(ds, size))
  {
    if ds != [] {
      AcceptedEncodable(ds[..|ds| - 1], size);
    }
  }

  /** What the kernel reads from the buffer: the kept entries, in order. */
  lemma AcceptedRoundTrip(ds: seq<Dirent>, size: nat)
    requires AllEncodable(ds)
    ensures Decode(SerializeAll(Accepted(ds, size))) == Accepted(ds, size)
  {
    AcceptedEncodable(ds, size);
    DecodeRoundTrip(Accepted(ds, size));
  }

  /** Every record takes at least HEADER bytes. */
  lemma {:induction false} TotalSizeAtLeast(ds: seq<Dirent>)
    ensures TotalSize(ds) >= HEADER * |ds|
  {
    if ds != [] {
      TotalSizeAtLeast(ds[..|ds| - 1]);
    }
  }
}
