/** The NodeFS table over whole runs of callbacks, and what listings and lookups agree on
    across them. */
module TableRuns {
  import opened Numbers
  import opened Marshalling
  import opened PathHash
  import opened PathIndex
  import opened Dirents
  import opened Replies
  import opened Handlers
  import opened Listings
  import opened Answers

  /** What the file system answers during each callback. */
  type Worlds = nat -> World

  /** The table updates of the first k callbacks. */
  ghost function EventsBefore(calls: seq<Callback>, worlds: Worlds, k: nat): seq<Event>
    requires k <= |calls|
    decreases k, 0
  {
    if k == 0 then [] else
      EventsBefore(calls, worlds, k - 1) + OutcomeOf(calls, worlds, k - 1).events
  }

  /** The table the k-th callback finds. */
  ghost function TreeAt(calls: seq<Callback>, worlds: Worlds, k: nat): Tree
    requires k <= |calls|
    decreases k, 1
  {
    ApplyAll(INITIAL, EventsBefore(calls, worlds, k))
  }

  ghost function OutcomeOf(calls: seq<Callback>, worlds: Worlds, k: nat): Outcome
    requires k < |calls|
    decreases k, 2
  {
    Handle(calls[k], TreeAt(calls, worlds, k), worlds(k))
  }

  lemma NextTree(calls: seq<Callback>, worlds: Worlds, n: nat)
    requires n < |calls|
    ensures TreeAt(calls, worlds, n + 1) == ApplyAll(TreeAt(calls, worlds, n), OutcomeOf(calls, worlds, n).events)
  {
    hide Handle, ApplyAll;
    ApplyAllConcat(INITIAL, EventsBefore(calls, worlds, n), OutcomeOf(calls, worlds, n).events);
  }

  /** In every state each key is the hash of its path, except key 1 on the root path. */
  lemma TableCoherent(calls: seq<Callback>, worlds: Worlds, k: nat)
    requires k <= |calls|
    ensures Coherent(TreeAt(calls, worlds, k))
  {
    CoherentAfter(INITIAL, EventsBefore(calls, worlds, k));
  }

  ghost predicate RemovedBetween(calls: seq<Callback>, worlds: Worlds, p: Text, j: nat, k: nat)
    requires k <= |calls|
  {
    exists i :: j <= i < k && Removes(calls[i], TreeAt(calls, worlds, i), worlds(i), p)
  }

  lemma {:induction false} EventsSplit(calls: seq<Callback>, worlds: Worlds, p: Text, j: nat, k: nat) returns (later: seq<Event>)
    requires j <= k <= |calls|
    requires !RemovedBetween(calls, worlds, p, j, k)
    ensures EventsBefore(calls, worlds, k) == EventsBefore(calls, worlds, j) + later
    ensures Drop(p) !in later
    decreases k
  {
    hide Handle, Removes, TreeAt;
    if j == k {
      later := [];
    } else {
      var front := EventsSplit(calls, worlds, p, j, k - 1);
      var o := OutcomeOf(calls, worlds, k - 1);
      if Drop(p) in o.events {
        OnlyRemovalDrops(calls[k - 1], TreeAt(calls, worlds, k - 1), worlds(k - 1), p);
        assert false;
      }
      later := front + o.events;
    }
  }

  /** Inode stability for the handlers themselves: once the j-th callback has stored
      path p, its inode resolves to p for every later callback k until an unlink or
      rmdir that names p is served, over any collision-free universe of paths. */
  lemma InodeStableUntilRemoved(universe: iset<Text>, calls: seq<Callback>, worlds: Worlds, p: Text, j: nat, k: nat)
    requires j < k <= |calls|
    requires CollisionFree(universe) && Within(EventsBefore(calls, worlds, k), universe)
    requires Store(p) in OutcomeOf(calls, worlds, j).events && Drop(p) !in OutcomeOf(calls, worlds, j).events
    requires !RemovedBetween(calls, worlds, p, j + 1, k)
    ensures At(TreeAt(calls, worlds, k), InodeOf(p)) == Some(p)
  {
    hide Handle, Removes, RemovedBetween, CollisionFree, Within, ApplyAll, InodeOf;
    var own := OutcomeOf(calls, worlds, j).events;
    var i :| 0 <= i < |own| && own[i] == Store(p);
    var later := EventsSplit(calls, worlds, p, j + 1, k);
    var before, after := EventsBefore(calls, worlds, j) + own[..i], own[i + 1..] + later;
    assert EventsBefore(calls, worlds, k) == before + [Store(p)] + after;
    InodeStability(universe, before, p, after);
  }

  /** An inode keeps the path it resolves to, the root's included, until an unlink or
      rmdir that names that path is served. */
  lemma PathKeptUntilRemoved(universe: iset<Text>, calls: seq<Callback>, worlds: Worlds, inode: nat, p: Text, j: nat, k: nat)
    requires j <= k <= |calls|
    requires CollisionFree(universe) && Within(EventsBefore(calls, worlds, k), universe)
    requires At(TreeAt(calls, worlds, j), inode) == Some(p)
    requires !RemovedBetween(calls, worlds, p, j, k)
    ensures At(TreeAt(calls, worlds, k), inode) == Some(p)
  {
    hide Handle, Removes, RemovedBetween, CollisionFree, ApplyAll, InodeOf;
    var later := EventsSplit(calls, worlds, p, j, k);
    var es := EventsBefore(calls, worlds, j);
    assert forall i :: 0 <= i < |es| ==> es[i] == (es + later)[i];
    IndexAgreesWithKnownPaths(universe, es);
    IndexAgreesWithKnownPaths(universe, es + later);
    if inode != ROOT_INODE {
      KnownStays(es, later, p);
    }
  }

  lemma {:induction false} KnownStays(es: seq<Event>, later: seq<Event>, p: Text)
    requires p in Known(es) && Drop(p) !in later
    ensures p in Known(es + later)
    decreases |later|
  {
    if later == [] {
      assert es + later == es;
    } else {
      assert (es + later)[..|es + later| - 1] == es + later[..|later| - 1];
      assert later[|later| - 1] in later;
      KnownStays(es, later[..|later| - 1], p);
    }
  }

  // ---- Listings and lookups in one run ----

  /** The size and the offset a listing's handler is called with. */
  function AskedSize(cb: Callback): U64
    requires cb.ReadDir?
  {
    ToWord(ToInt32(cb.size))
  }

  /** The directory a callback finds at an inode. */
  ghost function DirAt(calls: seq<Callback>, worlds: Worlds, k: nat, inode: U64): Option<Text>
    requires k <= |calls|
  {
    At(TreeAt(calls, worlds, k), Key(inode))
  }

  /** What the kernel decodes from the first reply to the k-th callback. */
  ghost function GotAt(calls: seq<Callback>, worlds: Worlds, k: nat): seq<Dirent>
    requires k < |calls|
  {
    Decode(FirstReply(OutcomeOf(calls, worlds, k)))
  }

  lemma GotAtIs(calls: seq<Callback>, worlds: Worlds, k: nat)
    requires k < |calls| && calls[k].ReadDir?
    ensures
      var dir := DirAt(calls, worlds, k, calls[k].ino);
      && OutcomeOf(calls, worlds, k) == ListOutcome(dir, AskedSize(calls[k]), ToInt32(calls[k].off), worlds(k))
      && GotAt(calls, worlds, k) == Got(dir, AskedSize(calls[k]), ToInt32(calls[k].off), worlds(k))
  {
    hide Handle, ListOutcome, TreeAt, ToInt32, ToDouble;
    HandleIs(calls[k], TreeAt(calls, worlds, k), worlds(k));
  }

  /** Wherever a readdir and a lookup stand in a run, and whatever is served in between:
      if they find the same path at the parent inode and it joins the name alike, every
      entry decoded from the listing carries the inode that the lookup of its name
      replies. */
  lemma ReadDirAgreesWithLookup(calls: seq<Callback>, worlds: Worlds, j: nat, k: nat, i: nat)
    requires j < |calls| && calls[j].ReadDir? && k < |calls| && calls[k].Lookup?
    requires i < |GotAt(calls, worlds, j)|
    requires
      var dir := DirAt(calls, worlds, j, calls[j].ino);
      && Calm(dir, AskedSize(calls[j]), worlds(j))
      && DirAt(calls, worlds, k, calls[k].parent) == dir
      && (i < |Names(dir, worlds(j))| ==> calls[k].name == Names(dir, worlds(j))[i])
      && worlds(k).join(dir, calls[k].name) == worlds(j).join(dir, calls[k].name)
      && worlds(k).lstat(worlds(k).join(dir, calls[k].name)).Some?
    ensures
      var dir := DirAt(calls, worlds, j, calls[j].ino);
      && GotAt(calls, worlds, j)[i].name == CString(worlds(j).utf8(calls[k].name))
      && |OutcomeOf(calls, worlds, k).sent| == 1
      && OutcomeOf(calls, worlds, k).sent[0].Entry?
      && OutcomeOf(calls, worlds, k).sent[0].inode == GotAt(calls, worlds, j)[i].ino
  {
    hide Handle, TreeAt, OutcomeOf, ToInt32, ToWord, ToDouble, Calm, Got, Names, CString, InodeOf, GotAt, ListOutcome;
    GotAtIs(calls, worlds, j);
    var dir := DirAt(calls, worlds, j, calls[j].ino);
    DecodedInodes(dir, AskedSize(calls[j]), ToInt32(calls[j].off), worlds(j), i);
    LookupAt(calls, worlds, k);
  }

  lemma LookupAt(calls: seq<Callback>, worlds: Worlds, k: nat)
    requires k < |calls| && calls[k].Lookup?
    ensures OutcomeOf(calls, worlds, k) ==
      LookupOutcome(Key(calls[k].parent), calls[k].name, TreeAt(calls, worlds, k), worlds(k))
  {
    hide Handle, LookupOutcome, TreeAt, ToDouble;
    HandleIs(calls[k], TreeAt(calls, worlds, k), worlds(k));
  }

  /** The events of a listing are stores. */
  lemma ListingStores(calls: seq<Callback>, worlds: Worlds, j: nat)
    requires j < |calls| && calls[j].ReadDir?
    ensures forall i :: 0 <= i < |OutcomeOf(calls, worlds, j).events| ==> OutcomeOf(calls, worlds, j).events[i].Store?
  {
    hide TreeAt, PassedCount, StoredCount, Rejections, Accepted, SerializeAll, Listing, ToInt32, ToWord, ToDouble;
    GotAtIs(calls, worlds, j);
  }

  /** As soon as a readdir callback has been served, even one that breaks off, each path it
      has listed resolves from its inode. */
  lemma ListedInodesResolve(universe: iset<Text>, calls: seq<Callback>, worlds: Worlds, j: nat, i: nat)
    requires j < |calls| && calls[j].ReadDir? && i < |OutcomeOf(calls, worlds, j).events|
    requires CollisionFree(universe) && Within(EventsBefore(calls, worlds, j + 1), universe)
    ensures
      var p := OutcomeOf(calls, worlds, j).events[i].path;
      At(TreeAt(calls, worlds, j + 1), InodeOf(p)) == Some(p)
  {
    hide TreeAt, OutcomeOf, EventsBefore, CollisionFree, Within, InodeOf;
    var es := OutcomeOf(calls, worlds, j).events;
    ListingStores(calls, worlds, j);
    assert es[i] == Store(es[i].path);
    InodeStableUntilRemoved(universe, calls, worlds, es[i].path, j, j + 1);
  }

  lemma {:induction false} StoresKeep(t: Tree, inode: nat, es: seq<Event>)
    requires inode in t
    requires forall i :: 0 <= i < |es| ==> es[i].Store? && (InodeOf(es[i].path) == inode ==> es[i].path == t[inode])
    ensures At(ApplyAll(t, es), inode) == At(t, inode)
  {
    if es != [] {
      StoresKeep(t, inode, es[..|es| - 1]);
      assert es[|es| - 1].Store?;
    }
  }

  /** A readdir leaves its own directory in place, with no assumption on the hash but
      this: no other path it lists has the directory's inode. */
  lemma ListingKeepsDirectory(calls: seq<Callback>, worlds: Worlds, j: nat)
    requires j < |calls| && calls[j].ReadDir?
    requires
      var dir := DirAt(calls, worlds, j, calls[j].ino);
      var es := OutcomeOf(calls, worlds, j).events;
      dir.Some? && forall i :: 0 <= i < |es| && InodeOf(es[i].path) == Key(calls[j].ino) ==> es[i].path == dir.value
    ensures DirAt(calls, worlds, j + 1, calls[j].ino) == DirAt(calls, worlds, j, calls[j].ino)
  {
    hide TreeAt, OutcomeOf, ApplyAll, InodeOf, ToDouble;
    var es := OutcomeOf(calls, worlds, j).events;
    ListingStores(calls, worlds, j);
    NextTree(calls, worlds, j);
    StoresKeep(TreeAt(calls, worlds, j), Key(calls[j].ino), es);
  }

  /** The directory looks the same in both worlds. */
  ghost predicate SameDirectory(dir: Option<Text>, size: U64, v: World, w: World) {
    && v.readdir(dir) == w.readdir(dir)
    && PassedCount(dir, Names(dir, v), size, v) == PassedCount(dir, Names(dir, w), size, w)
    && Listing(dir, Names(dir, v), 0, v) == Listing(dir, Names(dir, w), 0, w)
  }

  /** A client lists a directory by two readdir callbacks of a run, with anything served
      in between but a removal of the directory itself: the second resumes from the
      offset of the last entry it got. If the directory has not changed, it has seen "..",
      "." and every name the directory holds once and in order, and then an empty reply, if
      and only if the records fit; else it has seen nothing. Each listed inode resolves to the path of its entry when
      the second listing is served, unless that path has been removed. */
  lemma ListingOverRuns(universe: iset<Text>, calls: seq<Callback>, worlds: Worlds, j: nat, k: nat)
    requires j < k < |calls| && calls[j].ReadDir? && calls[k].ReadDir?
    requires calls[j].off == 0 && calls[k].ino == calls[j].ino && calls[k].size == calls[j].size < 0x8000_0000
    requires CollisionFree(universe) && Within(EventsBefore(calls, worlds, k), universe)
    requires
      var dir := DirAt(calls, worlds, j, calls[j].ino);
      && dir.Some? && !RemovedBetween(calls, worlds, dir.value, j, k)
      && Calm(dir, calls[j].size, worlds(j))
      && SameDirectory(dir, calls[j].size, worlds(j), worlds(k))
    requires GotAt(calls, worlds, j) != [] ==> calls[k].off == ToLong(GotAt(calls, worlds, j)[|GotAt(calls, worlds, j)| - 1].off)
    ensures
      var dir := DirAt(calls, worlds, j, calls[j].ino);
      var names := Names(dir, worlds(j));
      if !FitsWhole(dir, calls[j].size, worlds(j)) then GotAt(calls, worlds, j) == [] else
      && Lists(GotAt(calls, worlds, j), dir, worlds(j).readdir(dir).value, 0, worlds(j))
      && |GotAt(calls, worlds, j)| == |names|
      && GotAt(calls, worlds, k) == []
      && OutcomeOf(calls, worlds, k).sent == [Buf([])]
      && forall i :: 0 <= i < |names| && !RemovedBetween(calls, worlds, PathOf(dir, names[i], worlds(j)), j + 1, k) ==>
           At(TreeAt(calls, worlds, k), GotAt(calls, worlds, j)[i].ino) == Some(PathOf(dir, names[i], worlds(j)))
  {
    hide Handle, TreeAt, OutcomeOf, ToWord, ToDouble, CollisionFree, Within, EventsBefore, RemovedBetween, PassedCount,
      Listing, Lists, FitsWhole, GotAt, Got, PathOf, ListOutcome;
    var dir := DirAt(calls, worlds, j, calls[j].ino);
    var size := calls[j].size;
    var names := Names(dir, worlds(j));
    SmallSize(size);
    FirstListing(calls, worlds, j);
    if !FitsWhole(dir, size, worlds(j)) {
      return;
    }
    PathKeptUntilRemoved(universe, calls, worlds, Key(calls[j].ino), dir.value, j, k);
    SecondListing(calls, worlds, j, k);
    ListingLength(dir, names, 0, worlds(j));
    CalmLists(dir, size, 0, worlds(j));
    forall i | 0 <= i < |names| && !RemovedBetween(calls, worlds, PathOf(dir, names[i], worlds(j)), j + 1, k)
      ensures At(TreeAt(calls, worlds, k), GotAt(calls, worlds, j)[i].ino) == Some(PathOf(dir, names[i], worlds(j)))
    {
      ListedStored(calls, worlds, j, i);
      InodeStableUntilRemoved(universe, calls, worlds, PathOf(dir, names[i], worlds(j)), j, k);
    }
  }

  lemma SmallSize(size: U64)
    requires size < 0x8000_0000
    ensures ToWord(ToInt32(size)) == size
    ensures ToInt32(0) == 0
  {
  }

  lemma FirstListing(calls: seq<Callback>, worlds: Worlds, j: nat)
    requires j < |calls| && calls[j].ReadDir? && calls[j].off == 0 && calls[j].size < 0x8000_0000
    requires Calm(DirAt(calls, worlds, j, calls[j].ino), calls[j].size, worlds(j))
    ensures
      var dir := DirAt(calls, worlds, j, calls[j].ino);
      var all := Listing(dir, Names(dir, worlds(j)), 0, worlds(j));
      all != [] && GotAt(calls, worlds, j) == if FitsWhole(dir, calls[j].size, worlds(j)) then all else []
  {
    hide TreeAt, OutcomeOf, Calm, FitsWhole, Got, GotAt, ListOutcome, ToDouble;
    SmallSize(calls[j].size);
    GotAtIs(calls, worlds, j);
    GotIs(DirAt(calls, worlds, j, calls[j].ino), calls[j].size, 0, worlds(j));
  }

  /** The offset the client resumes from is the number of the last entry. */
  lemma LastOffset(dir: Option<Text>, size: U64, w: World)
    requires size < 0x8000_0000 && Calm(dir, size, w) && FitsWhole(dir, size, w)
    ensures
      var all := Listing(dir, Names(dir, w), 0, w);
      ToInt32(ToLong(all[|all| - 1].off)) == |Names(dir, w)| - 1
  {
    hide Got, PassedCount, FitsWhole;
    GotIs(dir, size, 0, w);
    ResumeIs(dir, size, 0, w);
  }

  lemma SecondListing(calls: seq<Callback>, worlds: Worlds, j: nat, k: nat)
    requires j < k < |calls| && calls[j].ReadDir? && calls[k].ReadDir?
    requires calls[k].size == calls[j].size < 0x8000_0000
    requires
      var dir := DirAt(calls, worlds, j, calls[j].ino);
      && DirAt(calls, worlds, k, calls[k].ino) == dir
      && Calm(dir, calls[j].size, worlds(j)) && FitsWhole(dir, calls[j].size, worlds(j))
      && SameDirectory(dir, calls[j].size, worlds(j), worlds(k))
      && GotAt(calls, worlds, j) == Listing(dir, Names(dir, worlds(j)), 0, worlds(j)) != []
    requires calls[k].off == ToLong(GotAt(calls, worlds, j)[|GotAt(calls, worlds, j)| - 1].off)
    ensures GotAt(calls, worlds, k) == [] && OutcomeOf(calls, worlds, k).sent == [Buf([])]
  {
    hide TreeAt, OutcomeOf, FitsWhole, GotAt, ToDouble, PassedCount, Listing, ToInt32, Rejections, Accepted;
    var dir := DirAt(calls, worlds, j, calls[j].ino);
    SmallSize(calls[j].size);
    LastOffset(dir, calls[j].size, worlds(j));
    GotAtIs(calls, worlds, k);
    assert Decode([]) == [];
  }

  /** A listing that comes to its end has stored the path of each entry it lists, under
      the inode the entry carries. */
  lemma ListedStored(calls: seq<Callback>, worlds: Worlds, j: nat, i: nat)
    requires j < |calls| && calls[j].ReadDir? && calls[j].off == 0 && calls[j].size < 0x8000_0000
    requires
      var dir := DirAt(calls, worlds, j, calls[j].ino);
      && Calm(dir, calls[j].size, worlds(j)) && FitsWhole(dir, calls[j].size, worlds(j))
      && i < |Names(dir, worlds(j))|
    ensures
      var dir := DirAt(calls, worlds, j, calls[j].ino);
      var p := PathOf(dir, Names(dir, worlds(j))[i], worlds(j));
      && Store(p) in OutcomeOf(calls, worlds, j).events && Drop(p) !in OutcomeOf(calls, worlds, j).events
      && i < |GotAt(calls, worlds, j)| && GotAt(calls, worlds, j)[i].ino == InodeOf(p)
  {
    hide TreeAt, OutcomeOf, GotAt, ToDouble, PassedCount, Listing, Rejections, Accepted, FitsWhole, InodeOf, SerializeAll,
      Got;
    var dir := DirAt(calls, worlds, j, calls[j].ino);
    var size, w := calls[j].size, worlds(j);
    var names := Names(dir, w);
    SmallSize(size);
    GotAtIs(calls, worlds, j);
    FirstListing(calls, worlds, j);
    ListingLength(dir, names, 0, w);
    DecodedInodes(dir, size, 0, w, i);
    EventsOfWhole(dir, size, w);
    assert ListingEvents(dir, names, w)[i] == Store(PathOf(dir, names[i], w));
  }

  lemma EventsOfWhole(dir: Option<Text>, size: U64, w: World)
    requires Calm(dir, size, w)
    ensures ListOutcome(dir, size, 0, w).events == ListingEvents(dir, Names(dir, w), w)
  {
    hide PassedCount, Rejections, Accepted, SerializeAll, Listing;
    var names := Names(dir, w);
    assert names[..|names|] == names;
  }
}
