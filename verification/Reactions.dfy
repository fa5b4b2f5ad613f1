/** The exact reaction of every handler: the replies it sends and the updates it makes, from
    the answers of `path`, `fs` and malloc alone. Error numbers are written out: 2 is
    ENOENT, 5 is EIO. */
module Reactions {
  import opened Numbers
  import opened Marshalling
  import opened PathHash
  import opened PathIndex
  import opened Dirents
  import opened Replies
  import opened Handlers
  import opened Listings

  /** Nothing but the end of the process. */
  predicate Dies(o: Outcome) { o == Outcome([], [], true, false) }

  /** One reply and nothing else. */
  predicate Says(o: Outcome, m: Msg) { o == Outcome([], [m], false, false) }

  /** One path stored, and one reply. */
  predicate Stores(o: Outcome, p: Text, m: Msg) { o == Outcome([Store(p)], [m], false, false) }

  /** One path dropped, and success replied. */
  predicate Drops(o: Outcome, p: Text) { o == Outcome([Drop(p)], [Err(0)], false, false) }

  // ---- Handlers that update the table ----

  /** A lookup of a missing name gets ENOENT, one of a name that is there its entry, with
      attributes that lack the inode. */
  lemma LookupReacts(cb: Callback, t: Tree, w: World)
    requires cb.Lookup?
    ensures
      var o := Handle(cb, t, w);
      match w.join(At(t, Key(cb.parent)), cb.name)
      case None => Dies(o)
      case Some(p) =>
        && (Says(o, Err(2)) <==> w.lstat(Some(p)).None?)
        && forall mode: U32 :: Stores(o, p, Entry(InodeOf(p), StatBuf(0, mode))) <==> w.lstat(Some(p)) == Some(mode)
  {
    hide Handle, ToDouble, InodeOf;
    HandleIs(cb, t, w);
  }

  /** mkdir, link and symlink on path p: the entry exactly if the call and the stat succeed,
      EIO exactly if the call returns an error value, else the end of the process. */
  ghost predicate Makes(o: Outcome, p: Text, result: Sys, stat: Option<U32>) {
    && (Dies(o) <==> result == Raised || (result == Returned(false) && stat == None))
    && (Says(o, Err(5)) <==> result == Returned(true))
    && forall mode: U32 :: Stores(o, p, Entry(InodeOf(p), StatBuf(InodeOf(p), mode))) <==>
         result == Returned(false) && stat == Some(mode)
  }

  lemma MkDirReacts(cb: Callback, t: Tree, w: World)
    requires cb.MkDir?
    ensures
      var o := Handle(cb, t, w);
      match w.join(At(t, Key(cb.parent)), cb.name)
      case None => Dies(o)
      case Some(p) => Makes(o, p, w.act(MkDirSync(p, ToInt32(cb.mode))), w.stat(Some(p)))
  {
    hide Handle, ToDouble, ToInt32, InodeOf;
    HandleIs(cb, t, w);
    ReportedInode(w.join(At(t, Key(cb.parent)), cb.name));
  }

  lemma LinkReacts(cb: Callback, t: Tree, w: World)
    requires cb.Link?
    ensures
      var o := Handle(cb, t, w);
      match w.join(At(t, Key(cb.newparent)), cb.newname)
      case None => Dies(o)
      case Some(p) => Makes(o, p, w.act(LinkSync(At(t, Key(cb.ino)), p)), w.stat(Some(p)))
  {
    hide Handle, ToDouble, InodeOf;
    HandleIs(cb, t, w);
    ReportedInode(w.join(At(t, Key(cb.newparent)), cb.newname));
  }

  lemma SymLinkReacts(cb: Callback, t: Tree, w: World)
    requires cb.SymLink?
    ensures
      var o := Handle(cb, t, w);
      match w.join(At(t, Key(cb.parent)), cb.name)
      case None => Dies(o)
      case Some(p) => Makes(o, p, w.act(SymLinkSync(cb.link, p)), w.lstat(Some(p)))
  {
    hide Handle, ToDouble, InodeOf;
    HandleIs(cb, t, w);
    ReportedInode(w.join(At(t, Key(cb.parent)), cb.name));
  }

  lemma ReportedInode(p: Option<Text>)
    ensures p.Some? ==> ToWord(InodeOf(p.value)) == InodeOf(p.value)
  {
    if p.Some? {
      SmallInode(p.value);
    }
  }

  lemma UnlinkReacts(cb: Callback, t: Tree, w: World)
    requires cb.Unlink?
    ensures
      var o := Handle(cb, t, w);
      match w.join(At(t, Key(cb.parent)), cb.name)
      case None => Dies(o)
      case Some(p) =>
        && (Dies(o) <==> w.act(UnlinkSync(p)) == Raised)
        && (Says(o, Err(5)) <==> w.act(UnlinkSync(p)) == Returned(true))
        && (Drops(o, p) <==> w.act(UnlinkSync(p)) == Returned(false))
  {
    hide Handle, ToDouble;
    HandleIs(cb, t, w);
  }

  lemma RmDirReacts(cb: Callback, t: Tree, w: World)
    requires cb.RmDir?
    ensures
      var o := Handle(cb, t, w);
      match w.join(At(t, Key(cb.parent)), cb.name)
      case None => Dies(o)
      case Some(p) =>
        && (Dies(o) <==> w.rmdir(p) == Refused)
        && (Drops(o, p) <==> w.rmdir(p) != Refused)
  {
    hide Handle, ToDouble;
    HandleIs(cb, t, w);
  }

  /** The call renames the first path to the second, and the second is stored. */
  lemma RenameReacts(cb: Callback, t: Tree, w: World)
    requires cb.Rename?
    ensures
      var o := Handle(cb, t, w);
      var from, to := w.join(At(t, Key(cb.parent)), cb.name), w.join(At(t, Key(cb.newparent)), cb.newname);
      if from.None? || to.None? then Dies(o) else
        && (Dies(o) <==> w.act(RenameSync(from.value, to.value)) == Raised)
        && (Stores(o, to.value, Err(0)) <==> w.act(RenameSync(from.value, to.value)) != Raised)
  {
    hide Handle, ToDouble, InodeOf;
    HandleIs(cb, t, w);
  }

  lemma CreateReacts(cb: Callback, t: Tree, w: World)
    requires cb.Create?
    ensures
      var o := Handle(cb, t, w);
      match w.join(At(t, Key(cb.parent)), cb.name)
      case None => Dies(o)
      case Some(p) =>
        var fd, stat := w.create(p, ToInt32(cb.mode)), w.stat(Some(p));
        && (Dies(o) <==> fd == OpenRaised || (fd == Fd(false) && stat == None))
        && (Says(o, Err(5)) <==> fd == Fd(true))
        && forall mode: U32 :: Stores(o, p, Created(InodeOf(p), StatBuf(InodeOf(p), mode))) <==>
             fd == Fd(false) && stat == Some(mode)
  {
    hide Handle, ToDouble, ToInt32, InodeOf;
    HandleIs(cb, t, w);
    ReportedInode(w.join(At(t, Key(cb.parent)), cb.name));
  }

  // ---- readdir ----

  /** A listing from an offset short of the end: it ends the process exactly if one of its
      names does; the updates are the stores of its names as far as they go, all of them
      unless the process ends; and then every rejected record is answered by an empty
      reply before the accepted ones go out. */
  lemma ListReacts(dir: Option<Text>, listed: seq<Text>, size: U64, offset: int, w: World)
    requires w.readdir(dir) == Some(listed) && offset + 1 < 2 + |listed|
    ensures
      var o := ListOutcome(dir, size, offset, w);
      && !o.reading
      && (o.fatal <==> AnyEnds(dir, listed, size, w))
      && StoresFirst(o.events, dir, listed, w)
      && (!o.fatal ==>
        var ds := Listing(dir, Names(dir, w), offset, w);
        && |o.events| == 2 + |listed|
        && Lists(ds, dir, listed, offset, w)
        && |o.sent| == 1 + Rejections(ds, size)
        && (forall i :: 0 <= i < |o.sent| - 1 ==> o.sent[i] == Buf([]))
        && o.sent[|o.sent| - 1] == Buf(SerializeAll(Accepted(ds, size))))
  {
    hide PassedCount, StoredCount, Entries, Listing, Lists, AnyEnds, StoresFirst, ListingEvents, Rejections, Accepted,
      SerializeAll;
    var names := Entries(listed);
    EntriesAt(listed);
    ListedAllIff(dir, listed, size, w);
    ListingStoresFirst(dir, listed, size, w);
    assert names[..|names|] == names;
    if PassedCount(dir, names, size, w) == |names| {
      ListingLists(dir, listed, size, offset, w);
      AllStored(dir, names, size, w);
    }
  }

  lemma ReadDirReacts(cb: Callback, t: Tree, w: World)
    requires cb.ReadDir?
    ensures
      var o, dir, offset := Handle(cb, t, w), At(t, Key(cb.ino)), ToInt32(cb.off);
      match w.readdir(dir)
      case None => Dies(o)
      case Some(listed) =>
        if 2 + |listed| <= offset + 1 then Says(o, Buf([]))
        else o == ListOutcome(dir, ToWord(ToInt32(cb.size)), offset, w)
  {
    hide Handle, ToDouble, ToInt32, ToWord, PassedCount, StoredCount, Rejections, Accepted, SerializeAll, Listing,
      ListingEvents;
    HandleIs(cb, t, w);
  }

  // ---- Handlers that leave the table alone ----

  lemma GetAttrReacts(cb: Callback, t: Tree, w: World)
    requires cb.GetAttr?
    ensures
      var o, stat := Handle(cb, t, w), w.lstat(At(t, Key(cb.ino)));
      && (Says(o, Err(2)) <==> stat == None)
      && forall mode: U32 :: Says(o, Attr(StatBuf(ToWord(Key(cb.ino)), mode))) <==> stat == Some(mode)
  {
    hide Handle, ToDouble, ToWord;
    HandleIs(cb, t, w);
  }

  lemma SetAttrReacts(cb: Callback, t: Tree, w: World)
    requires cb.SetAttr?
    ensures
      var o, of := Handle(cb, t, w), At(t, Key(cb.ino));
      var result, stat := w.act(ChModSync(of, AttrsToSet(cb.toSet, cb.attr))), w.lstat(of);
      && (Dies(o) <==> result == Raised || (result == Returned(false) && stat == None))
      && (Says(o, Err(5)) <==> result == Returned(true))
      && forall mode: U32 :: Says(o, Attr(StatBuf(0, mode))) <==> result == Returned(false) && stat == Some(mode)
  {
    hide Handle, ToDouble;
    HandleIs(cb, t, w);
  }

  lemma ReadLinkReacts(cb: Callback, t: Tree, w: World)
    requires cb.ReadLink?
    ensures
      var o, link := Handle(cb, t, w), w.readlink(At(t, Key(cb.ino)));
      && (Dies(o) <==> link == None)
      && forall target: Text :: Says(o, LinkTarget(target)) <==> link == Some(target)
  {
    hide Handle, ToDouble;
    HandleIs(cb, t, w);
  }

  /** The file is opened for appending, and if that raises, for reading. */
  lemma OpenReacts(cb: Callback, t: Tree, w: World)
    requires cb.Open?
    ensures
      var o, of := Handle(cb, t, w), At(t, Key(cb.ino));
      var fd := if w.open(of, "a+") == OpenRaised then w.open(of, "r") else w.open(of, "a+");
      && (Dies(o) <==> fd == OpenRaised)
      && (Says(o, Err(5)) <==> fd == Fd(true))
      && (Says(o, Opened) <==> fd == Fd(false))
  {
    hide Handle, ToDouble;
    HandleIs(cb, t, w);
  }

  /** A read replies later, or ends the process. */
  lemma ReadReacts(cb: Callback, t: Tree, w: World)
    requires cb.Read?
    ensures
      var o, raises := Handle(cb, t, w), w.readRaises(FileInfo(cb.fi), ToInt32(cb.size), ToInt32(cb.off));
      && (Dies(o) <==> raises)
      && (o == Outcome([], [], false, true) <==> !raises)
  {
    hide Handle, ToInt32;
    HandleIs(cb, t, w);
  }

  lemma WriteReacts(cb: Callback, t: Tree, w: World)
    requires cb.Write?
    ensures
      var o := Handle(cb, t, w);
      var bytes := w.write(At(t, Key(cb.ino)), JsBuffer(cb.buf, cb.size), ToInt32(cb.off), FileInfo(cb.fi));
      && (Dies(o) <==> bytes == None)
      && forall count: nat :: Says(o, Written(count)) <==> bytes == Some(count)
  {
    hide Handle, ToInt32, ToDouble;
    HandleIs(cb, t, w);
  }

  lemma GetXAttrReacts(cb: Callback, t: Tree, w: World)
    requires cb.GetXAttr?
    ensures
      var o := Handle(cb, t, w);
      && (Dies(o) <==> ToDouble(cb.size) >= 0x8000_0000)
      && (Says(o, Xattr(ToDouble(cb.size))) <==> ToDouble(cb.size) < 0x8000_0000)
  {
    hide Handle, ToDouble;
    HandleIs(cb, t, w);
  }

  predicate AlwaysSucceeds(cb: Callback) {
    cb.Flush? || cb.Release? || cb.FSync? || cb.ReleaseDir? || cb.FSyncDir? || cb.ListXAttr? || cb.RemoveXAttr?
    || cb.Access? || cb.GetLock? || cb.SetLock?
  }

  /** The handlers whose reaction does not depend on the world. */
  lemma OthersReact(cb: Callback, t: Tree, w: World)
    ensures
      var o := Handle(cb, t, w);
      && (cb.Init? || cb.Destroy? ==> o == Outcome([], [], false, false))
      && (cb.MkNod? ==> Says(o, Err(2)))
      && (cb.OpenDir? ==> Says(o, Opened))
      && (cb.StatFs? ==> Says(o, Statistics))
      && (cb.SetXAttr? || cb.BMap? ==> Dies(o))
      && (AlwaysSucceeds(cb) ==> Says(o, Err(0)))
  {
    hide Handle, ToDouble, ListOutcome;
    HandleIs(cb, t, w);
  }
}
