/** The NodeFS table from inode to path, and what it means over whole runs. */
module PathIndex {
  import opened Numbers
  import opened PathHash

  type Tree = map<nat, Text>

  const ROOT_INODE: nat := 1
  /** "/tmp/" */
  const ROOT: Text := [47, 116, 109, 112, 47]
  const INITIAL: Tree := map[ROOT_INODE := ROOT]

  /** Every handler changes the table by assignments `tree[hash(p)] = p` and
      deletions `delete tree[hash(p)]`. */
  datatype Event = Store(path: Text) | Drop(path: Text)

  function Apply(t: Tree, e: Event): Tree {
    match e
    case Store(p) => t[InodeOf(p) := p]
    case Drop(p) => t - {InodeOf(p)}
  }

  function ApplyAll(t: Tree, es: seq<Event>): Tree {
    if es == [] then t else Apply(ApplyAll(t, es[..|es| - 1]), es[|es| - 1])
  }

  lemma {:induction false} ApplyAllConcat(t: Tree, es: seq<Event>, fs: seq<Event>)
    ensures ApplyAll(t, es + fs) == ApplyAll(ApplyAll(t, es), fs)
    decreases |fs|
  {
    if fs == [] {
      assert es + fs == es;
    } else {
      assert (es + fs)[..|es + fs| - 1] == es + fs[..|fs| - 1];
      ApplyAllConcat(t, es, fs[..|fs| - 1]);
    }
  }

  // ---- Without any assumption on the hash ----

  /** Each key is the hash of its path, except key 1 while it holds the root path. */
  ghost predicate Coherent(t: Tree) {
    forall k :: k in t ==> InodeOf(t[k]) == k || (k == ROOT_INODE && t[k] == ROOT)
  }

  lemma {:induction false} CoherentAfter(t: Tree, es: seq<Event>)
    requires Coherent(t)
    ensures Coherent(ApplyAll(t, es))
  {
    if es != [] {
      CoherentAfter(t, es[..|es| - 1]);
    }
  }

  // ---- Over a collision-free universe of paths ----

  ghost predicate CollisionFree(universe: iset<Text>) {
    && (forall p, q :: p in universe && q in universe && InodeOf(p) == InodeOf(q) ==> p == q)
    && (forall p :: p in universe ==> InodeOf(p) != ROOT_INODE)
  }

  ghost predicate Within(es: seq<Event>, universe: iset<Text>) {
    forall i :: 0 <= i < |es| ==> es[i].path in universe
  }

  /** The paths stored and not dropped since: what the table is an index of. */
  function Known(es: seq<Event>): set<Text> {
    if es == [] then {} else
      var before := Known(es[..|es| - 1]);
      match es[|es| - 1]
      case Store(p) => before + {p}
      case Drop(p) => before - {p}
  }

  ghost predicate Agrees(t: Tree, known: set<Text>) {
    && ROOT_INODE in t && t[ROOT_INODE] == ROOT
    && (forall p :: p in known ==> InodeOf(p) in t && t[InodeOf(p)] == p)
    && (forall k :: k in t && k != ROOT_INODE ==> t[k] in known && InodeOf(t[k]) == k)
  }

  lemma {:induction false} KnownWithin(es: seq<Event>, universe: iset<Text>)
    requires Within(es, universe)
    ensures forall p :: p in Known(es) ==> p in universe
  {
    if es != [] {
      assert es[|es| - 1].path in universe;
      KnownWithin(es[..|es| - 1], universe);
    }
  }

  lemma {:induction false} IndexAgreesWithKnownPaths(universe: iset<Text>, es: seq<Event>)
    requires CollisionFree(universe) && Within(es, universe)
    ensures Agrees(ApplyAll(INITIAL, es), Known(es))
  {
    if es != [] {
      var before := es[..|es| - 1];
      IndexAgreesWithKnownPaths(universe, before);
      KnownWithin(before, universe);
      assert es[|es| - 1].path in universe;
      AgreesAfterOne(universe, ApplyAll(INITIAL, before), Known(before), es[|es| - 1]);
    }
  }

  lemma AgreesAfterOne(universe: iset<Text>, t: Tree, known: set<Text>, e: Event)
    requires CollisionFree(universe) && e.path in universe
    requires forall p :: p in known ==> p in universe
    requires Agrees(t, known)
    ensures Agrees(Apply(t, e), if e.Store? then known + {e.path} else known - {e.path})
  {
  }

  lemma RootHash()
    ensures Acc(ROOT) == 46969511
  {
    assert ROOT == PATH_MINUS_8[..5];
    AccOfTmp();
  }

  /** The table is an index of the known paths in every run over a universe exactly
      when that universe has no collision and no path hashing to the root's inode. */
  lemma IndexAgreesIff(universe: iset<Text>)
    ensures (forall es :: Within(es, universe) ==> Agrees(ApplyAll(INITIAL, es), Known(es)))
       <==> CollisionFree(universe)
  {
    if CollisionFree(universe) {
      forall es | Within(es, universe)
        ensures Agrees(ApplyAll(INITIAL, es), Known(es))
      {
        IndexAgreesWithKnownPaths(universe, es);
      }
    } else if p, q :| p in universe && q in universe && InodeOf(p) == InodeOf(q) && p != q {
      CollisionBreaks(universe, p, q);
    } else {
      var p :| p in universe && InodeOf(p) == ROOT_INODE;
      RootCollisionBreaks(universe, p);
    }
  }

  lemma ApplyTwo(t: Tree, e: Event, f: Event)
    ensures ApplyAll(t, [e]) == Apply(t, e)
    ensures ApplyAll(t, [e, f]) == Apply(Apply(t, e), f)
  {
    assert [e][..0] == [] && [e, f][..1] == [e];
  }

  lemma CollisionBreaks(universe: iset<Text>, p: Text, q: Text)
    requires p in universe && q in universe && InodeOf(p) == InodeOf(q) && p != q
    ensures exists es :: Within(es, universe) && !Agrees(ApplyAll(INITIAL, es), Known(es))
  {
    var es := [Store(p), Store(q)];
    ApplyTwo(INITIAL, es[0], es[1]);
    assert es[..1] == [Store(p)] && es[..1][..0] == [];
    assert Known(es[..1]) == Known([]) + {p};
    assert p in Known(es);
    assert Within(es, universe) && !Agrees(ApplyAll(INITIAL, es), Known(es));
  }

  lemma RootCollisionBreaks(universe: iset<Text>, p: Text)
    requires p in universe && InodeOf(p) == ROOT_INODE
    ensures exists es :: Within(es, universe) && !Agrees(ApplyAll(INITIAL, es), Known(es))
  {
    RootHash();
    var es := [Store(p)];
    ApplyTwo(INITIAL, es[0], es[0]);
    assert Within(es, universe) && !Agrees(ApplyAll(INITIAL, es), Known(es));
  }

  ghost predicate Resolves(es: seq<Event>, p: Text) {
    InodeOf(p) in ApplyAll(INITIAL, es) && ApplyAll(INITIAL, es)[InodeOf(p)] == p
  }

  /** After `tree[hash(p)] = p`, the inode of p resolves to p whatever follows, as
      long as no later unlink or rmdir names p. */
  lemma InodeStability(universe: iset<Text>, before: seq<Event>, p: Text, after: seq<Event>)
    requires CollisionFree(universe) && Within(before + [Store(p)] + after, universe)
    requires Drop(p) !in after
    ensures Resolves(before + [Store(p)] + after, p)
  {
    IndexAgreesWithKnownPaths(universe, before + [Store(p)] + after);
    StaysKnown(before, p, after);
  }

  lemma {:induction false} StaysKnown(before: seq<Event>, p: Text, after: seq<Event>)
    requires Drop(p) !in after
    ensures p in Known(before + [Store(p)] + after)
    decreases |after|
  {
    var es := before + [Store(p)] + after;
    if after == [] {
      assert es[..|es| - 1] == before;
    } else {
      assert es[..|es| - 1] == before + [Store(p)] + after[..|after| - 1];
      StaysKnown(before, p, after[..|after| - 1]);
      assert es[|es| - 1] == after[|after| - 1] && after[|after| - 1] in after;
    }
  }

  /** The converse: once dropped, and until stored again, p has no inode at all. */
  lemma InodeGone(universe: iset<Text>, before: seq<Event>, p: Text, after: seq<Event>)
    requires CollisionFree(universe) && Within(before + [Drop(p)] + after, universe)
    requires Store(p) !in after
    ensures InodeOf(p) !in ApplyAll(INITIAL, before + [Drop(p)] + after)
  {
    var es := before + [Drop(p)] + after;
    IndexAgreesWithKnownPaths(universe, es);
    StaysUnknown(before, p, after);
    KnownWithin(es, universe);
    assert es[|before|].path == p;
  }

  lemma {:induction false} StaysUnknown(before: seq<Event>, p: Text, after: seq<Event>)
    requires Store(p) !in after
    ensures p !in Known(before + [Drop(p)] + after)
    decreases |after|
  {
    var es := before + [Drop(p)] + after;
    if after == [] {
      assert es[..|es| - 1] == before;
    } else {
      assert es[..|es| - 1] == before + [Drop(p)] + after[..|after| - 1];
      StaysUnknown(before, p, after[..|after| - 1]);
      assert es[|es| - 1] == after[|after| - 1] && after[|after| - 1] in after;
    }
  }

  /** The two colliding names below make the difference visible: storing the second
      makes the first one's inode resolve to the second path. */
  lemma CollidingNamesShareAnInode()
    ensures !Resolves([Store(PATH_AA), Store(PATH_BB)], PATH_AA)
    ensures Resolves([Store(PATH_AA), Store(PATH_BB)], PATH_BB)
  {
    AccumulatorCollision();
    ApplyTwo(INITIAL, Store(PATH_AA), Store(PATH_BB));
  }
}
