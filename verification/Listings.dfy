/** Directory listings as a client sees them: replies, offsets, inodes. */
module Listings {
  import opened Numbers
  import opened Marshalling
  import opened PathHash
  import opened Dirents
  import opened Replies
  import opened Handlers

  /** The directory can be read and none of its entries ends the process. */
  predicate Calm(dir: Option<Text>, size: U64, w: World) {
    && w.readdir(dir).Some?
    && PassedCount(dir, Names(dir, w), size, w) == |Names(dir, w)|
  }

  function Names(dir: Option<Text>, w: World): (names: seq<Text>)
    ensures |names| >= 2
  {
    if w.readdir(dir).Some? then Entries(w.readdir(dir).value) else Entries([])
  }

  /** In terms of the directory's own names. */
  lemma CalmIff(dir: Option<Text>, size: U64, w: World)
    ensures Calm(dir, size, w) <==> w.readdir(dir).Some? && !AnyEnds(dir, w.readdir(dir).value, size, w)
  {
    hide PassedCount, AnyEnds, Entries;
    if w.readdir(dir).Some? {
      ListedAllIff(dir, w.readdir(dir).value, size, w);
    }
  }

  /** All records of a listing fit the requested size together. */
  predicate FitsWhole(dir: Option<Text>, size: nat, w: World) {
    TotalSize(Listing(dir, Names(dir, w), 0, w)) <= size
  }

  lemma {:induction false} SizeIgnoresOffset(dir: Option<Text>, names: seq<Text>, x: int, y: int, w: World)
    ensures TotalSize(Listing(dir, names, x, w)) == TotalSize(Listing(dir, names, y, w))
  {
    if names != [] {
      var front := names[..|names| - 1];
      SizeIgnoresOffset(dir, front, x, y, w);
      ListingFront(dir, names, x, w);
      ListingFront(dir, names, y, w);
    }
  }

  lemma ListingFront(dir: Option<Text>, names: seq<Text>, x: int, w: World)
    requires names != []
    ensures
      var ds := Listing(dir, names, x, w);
      ds[..|ds| - 1] == Listing(dir, names[..|names| - 1], x, w)
        && ds[|ds| - 1].name == CString(w.utf8(names[|names| - 1]))
  {
  }

  lemma FitsIff(dir: Option<Text>, size: U64, offset: int, w: World)
    ensures FitsWhole(dir, size, w) <==> |SerializeAll(Listing(dir, Names(dir, w), offset, w))| <= size
  {
    hide Names;
    TotalSizeIsLength(Listing(dir, Names(dir, w), offset, w));
    SizeIgnoresOffset(dir, Names(dir, w), offset, 0, w);
  }

  // ---- One reply per listing ----

  /** The reply attempts are one plus the rejected entries; there is a single one
      exactly when all records fit, and then it carries the records of "..", "." and every
      name the directory holds, in order. The table gets the joined paths of the same
      names. */
  lemma OneReplyIff(dir: Option<Text>, size: U64, offset: int, w: World)
    requires Calm(dir, size, w) && offset + 1 < |Names(dir, w)|
    ensures
      var o := ListOutcome(dir, size, offset, w);
      var ds := Listing(dir, Names(dir, w), offset, w);
      && !o.fatal
      && |o.sent| == 1 + Rejections(ds, size)
      && (|o.sent| == 1 <==> FitsWhole(dir, size, w))
      && Lists(ds, dir, w.readdir(dir).value, offset, w)
      && (FitsWhole(dir, size, w) <==> |SerializeAll(ds)| <= size)
      && (FitsWhole(dir, size, w) ==> o.sent[0].Buf? && Decode(o.sent[0].bytes) == ds)
      && (!FitsWhole(dir, size, w) ==> o.sent[0] == Buf([]))
      && StoresFirst(o.events, dir, w.readdir(dir).value, w) && |o.events| == 2 + |w.readdir(dir).value|
  {
    hide PassedCount, StoredCount, Lists, StoresFirst, SerializeAll, Accepted, FitsWhole, TotalSize, Listing,
      ListingEvents;
    var names := Names(dir, w);
    ListingLists(dir, w.readdir(dir).value, size, offset, w);
    ListingStoresFirst(dir, w.readdir(dir).value, size, w);
    FitsIff(dir, size, offset, w);
    AllStored(dir, names, size, w);
    EntriesAt(w.readdir(dir).value);
    ListingLength(dir, names, offset, w);
    RecordsFit(dir, size, offset, w);
    var ds := Listing(dir, names, offset, w);
    assert names[..|names|] == names;
    ListingEncodable(dir, names, offset, w);
    AcceptedRoundTrip(ds, size);
  }

  lemma RecordsFit(dir: Option<Text>, size: U64, offset: int, w: World)
    ensures
      var ds := Listing(dir, Names(dir, w), offset, w);
      && (Rejections(ds, size) == 0 <==> FitsWhole(dir, size, w))
      && (Rejections(ds, size) == 0 <==> Accepted(ds, size) == ds)
  {
    hide Names;
    SizeIgnoresOffset(dir, Names(dir, w), offset, 0, w);
    AllAcceptedIff(Listing(dir, Names(dir, w), offset, w), size);
  }

  lemma AllStored(dir: Option<Text>, names: seq<Text>, size: U64, w: World)
    requires PassedCount(dir, names, size, w) == |names|
    ensures StoredCount(dir, names, size, w) == |names|
  {
  }

  lemma ListingLength(dir: Option<Text>, names: seq<Text>, offset: int, w: World)
    ensures |Listing(dir, names, offset, w)| == |names|
  {
  }

  lemma ListingEncodable(dir: Option<Text>, names: seq<Text>, offset: int, w: World)
    ensures AllEncodable(Listing(dir, names, offset, w))
  {
  }

  // ---- A client that lists from offset 0 ----

  /** What libfuse hands to the kernel is the first reply. */
  function FirstReply(o: Outcome): Bytes {
    if o.sent != [] && o.sent[0].Buf? then o.sent[0].bytes else []
  }

  function Got(dir: Option<Text>, size: U64, offset: int, w: World): seq<Dirent> {
    Decode(FirstReply(ListOutcome(dir, size, offset, w)))
  }

  /** The offset of the next call: the last entry's, back through off_t and Integer::New. */
  function Resume(got: seq<Dirent>): int
    requires got != []
  {
    ToInt32(ToLong(got[|got| - 1].off))
  }

  lemma GotIs(dir: Option<Text>, size: U64, offset: int, w: World)
    requires Calm(dir, size, w)
    ensures
      Got(dir, size, offset, w) ==
        if offset + 1 < |Names(dir, w)| && FitsWhole(dir, size, w) then Listing(dir, Names(dir, w), offset, w) else []
  {
    assert Decode([]) == [];
    if offset + 1 < |Names(dir, w)| {
      OneReplyIff(dir, size, offset, w);
    }
  }

  lemma ResumeIs(dir: Option<Text>, size: nat, offset: nat, w: World)
    requires size < 0x8000_0000 && Calm(dir, size, w) && Got(dir, size, offset, w) != []
    ensures Resume(Got(dir, size, offset, w)) == offset + |Names(dir, w)| - 1
    ensures offset + 1 < |Names(dir, w)|
  {
    hide Got, PassedCount, Listing, DirentOf, TotalSize;
    GotIs(dir, size, offset, w);
    var names := Names(dir, w);
    TotalSizeAtLeast(Listing(dir, names, 0, w));
    ListingLength(dir, names, 0, w);
    SmallOffset(offset + |names| - 1);
    LastOff(dir, names, offset, w);
  }

  lemma LastOff(dir: Option<Text>, names: seq<Text>, offset: int, w: World)
    requires names != []
    ensures
      var ds := Listing(dir, names, offset, w);
      |ds| == |names| && ds[|ds| - 1].off == ToWord(offset + |names| - 1)
  {
    hide InodeOf, CString, KindOf;
  }

  lemma SmallOffset(x: nat)
    requires x < 0x8000_0000
    ensures ToInt32(ToLong(ToWord(x))) == x
  {
  }

  /** readdir(3) over the offset protocol: ask, take the entries, resume from the last
      one's offset, stop at an empty reply. The entries seen and the calls made. */
  function ClientList(dir: Option<Text>, size: nat, offset: nat, w: World): (seq<Dirent>, nat)
    requires size < 0x8000_0000 && Calm(dir, size, w)
    decreases if offset < |Names(dir, w)| then |Names(dir, w)| - offset else 0
  {
    var got := Got(dir, size, offset, w);
    if got == [] then ([], 1) else
      ResumeIs(dir, size, offset, w);
      var (rest, calls) := ClientList(dir, size, Resume(got), w);
      (got + rest, calls + 1)
  }

  /** For an unchanged directory the client sees "..", "." and every name the directory
      holds exactly once, in order, if and only if the records fit the requested size; it
      then stops after two calls. Otherwise the first reply is empty and it sees nothing
      at all. */
  lemma CompleteListingIff(dir: Option<Text>, size: nat, w: World)
    requires size < 0x8000_0000 && Calm(dir, size, w)
    ensures
      var all := Listing(dir, Names(dir, w), 0, w);
      ClientList(dir, size, 0, w) == if FitsWhole(dir, size, w) then (all, 2) else ([], 1)
    ensures Lists(ClientList(dir, size, 0, w).0, dir, w.readdir(dir).value, 0, w) <==> FitsWhole(dir, size, w)
    ensures FitsWhole(dir, size, w) <==> |SerializeAll(Listing(dir, Names(dir, w), 0, w))| <= size
  {
    hide Got, Calm, FitsWhole, Listing, Lists, SerializeAll, Names;
    var all := Listing(dir, Names(dir, w), 0, w);
    CalmLists(dir, size, 0, w);
    ListsSome(all, dir, w.readdir(dir).value, w);
    GotIs(dir, size, 0, w);
    FitsIff(dir, size, 0, w);
    if FitsWhole(dir, size, w) {
      var next := |Names(dir, w)| - 1;
      ResumeIs(dir, size, 0, w);
      GotIs(dir, size, next, w);
      assert ClientList(dir, size, next, w) == ([], 1);
      assert all + [] == all;
    }
  }

  lemma CalmLists(dir: Option<Text>, size: U64, offset: int, w: World)
    requires Calm(dir, size, w)
    ensures w.readdir(dir).Some?
    ensures Lists(Listing(dir, Names(dir, w), offset, w), dir, w.readdir(dir).value, offset, w)
  {
    hide PassedCount, Listing, Lists, Entries;
    ListingLists(dir, w.readdir(dir).value, size, offset, w);
  }

  lemma ListsSome(ds: seq<Dirent>, dir: Option<Text>, listed: seq<Text>, w: World)
    ensures Lists(ds, dir, listed, 0, w) ==> ds != []
    ensures !Lists([], dir, listed, 0, w)
  {
  }

  function NamesOf(ds: seq<Dirent>): seq<Bytes> {
    seq(|ds|, i requires 0 <= i < |ds| => ds[i].name)
  }

  /** A client that has consumed the entries up to number k and resumes from its offset
      gets exactly the remaining ones if and only if k is the last entry; from any other
      offset "..", "." and all names of the directory are listed again. */
  lemma ResumeIff(dir: Option<Text>, size: nat, k: nat, w: World)
    requires size < 0x8000_0000 && Calm(dir, size, w) && FitsWhole(dir, size, w) && k < |Names(dir, w)|
    ensures
      var all := NamesOf(Listing(dir, Names(dir, w), 0, w));
      var got := NamesOf(Got(dir, size, k, w));
      && (got == all[k + 1..] <==> k == |all| - 1)
      && (k < |all| - 1 ==> got == all && Lists(Got(dir, size, k, w), dir, w.readdir(dir).value, k, w))
  {
    hide Got, PassedCount, Accepted, TotalSize, FitsWhole, CString, DirentOf, IsRecord, Lists;
    ListingLists(dir, w.readdir(dir).value, size, k, w);
    GotIs(dir, size, k, w);
    if k < |Names(dir, w)| - 1 {
      NamesIgnoreOffset(dir, Names(dir, w), k, 0, w);
    }
  }

  lemma NamesIgnoreOffset(dir: Option<Text>, names: seq<Text>, x: int, y: int, w: World)
    ensures NamesOf(Listing(dir, names, x, w)) == NamesOf(Listing(dir, names, y, w))
  {
  }

  // ---- Inodes in listings ----

  /** Every entry the client decodes carries the inode of its path, and its name. */
  lemma DecodedInodes(dir: Option<Text>, size: U64, offset: int, w: World, i: nat)
    requires Calm(dir, size, w) && i < |Got(dir, size, offset, w)|
    ensures
      var got := Got(dir, size, offset, w);
      && i < |Names(dir, w)|
      && got[i].name == CString(w.utf8(Names(dir, w)[i]))
      && w.join(dir, Names(dir, w)[i]).Some?
      && got[i].ino == InodeOf(w.join(dir, Names(dir, w)[i]).value)
  {
    hide Got, PassedCount, FitsWhole, CString, InodeOf, ModeOf, KindOf, RecordSize;
    GotIs(dir, size, offset, w);
    PassedAreReadable(dir, Names(dir, w), size, w, i);
    SmallInode(PathOf(dir, Names(dir, w)[i], w));
  }
}
