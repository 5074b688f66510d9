/** Splitting the root: the root reference stays in place and becomes the parent of its two halves. */
module RootSplit {
  import opened Bytes
  import opened Pages
  import opened ChildrenCache
  import opened Forest
  import opened ForestSplit
  import opened SplitTheorems

  datatype RootSplit = RootSplit(left: Half, right: Half, splitKey: Key, info: PageInfo, page: NodePage)

  /** The state after `ReplaceRoot`. */
  ghost predicate RootTo(f: Forest, f': Forest, root: RefId, s: RootSplit) {
    && root in f.refs && root in f'.refs && Labelled(f', root)
    && Extends(f, f', {root}) && HasHalf(f, f', s.left) && HasHalf(f, f', s.right)
    && s.left.id != s.right.id && s.left.ref.pageID != s.right.ref.pageID
    && f'.refs[root] == PageRef(f.refs[root].pageID, s.info, Some(Cache([s.left.id, s.right.id], [s.splitKey])))
    && !s.info.isLeaf && s.info.pageID in f'.pages && f'.pages[s.info.pageID] == Node(s.page)
    && InsertChild(EMPTY_NODE, 0, s.splitKey, s.left.ref.pageID, s.right.ref.pageID) == Ok(s.page)
  }

  function ApplyRoot(f: Forest, root: RefId, s: RootSplit): Forest
    requires root in f.refs
  {
    Forest(f.refs[root := PageRef(f.refs[root].pageID, s.info, Some(Cache([s.left.id, s.right.id], [s.splitKey])))]
                 [s.left.id := s.left.ref][s.right.id := s.right.ref],
           f.pages[s.info.pageID := Node(s.page)][s.left.ref.pageID := s.left.page][s.right.ref.pageID := s.right.page])
  }

  lemma ApplyIsRootTo(f: Forest, root: RefId, s: RootSplit)
    requires root in f.refs && FreshHalf(f, s.left) && FreshHalf(f, s.right)
    requires s.left.id != s.right.id && s.left.ref.pageID != s.right.ref.pageID
    requires s.info.pageID !in f.pages && s.info.pageID != s.left.ref.pageID && s.info.pageID != s.right.ref.pageID
    requires !s.info.isLeaf && Usable(s.info)
    requires InsertChild(EMPTY_NODE, 0, s.splitKey, s.left.ref.pageID, s.right.ref.pageID) == Ok(s.page)
    ensures var f' := ApplyRoot(f, root, s);
            && RootTo(f, f', root, s)
            && f'.refs.Keys == f.refs.Keys + {s.left.id, s.right.id}
            && f'.pages.Keys == f.pages.Keys + {s.info.pageID, s.left.ref.pageID, s.right.ref.pageID}
  {
    hide InsertChild;
  }

  ghost function ShapeAfterRoot(sh: Shape, root: RefId, s: RootSplit): (sh': Shape)
    requires root in sh && s.left.id !in sh && s.right.id !in sh && s.left.id != s.right.id
    ensures sh'.Keys == sh.Keys + {s.left.id, s.right.id}
    ensures root in sh' && sh'[root] == Place(None, None, sh[root].level + 1, None)
    ensures forall x :: x in sh && x != root ==>
            x in sh' && sh'[x] == Reparent(sh[x], root, s.left.id, s.right.id, s.splitKey)
    ensures s.left.id in sh' && sh'[s.left.id] == Place(None, Some(s.splitKey), sh[root].level, Some(root))
    ensures s.right.id in sh' && sh'[s.right.id] == Place(Some(s.splitKey), None, sh[root].level, Some(root))
  {
    (map x | x in sh :: if x == root then Place(None, None, sh[root].level + 1, None)
                        else Reparent(sh[x], root, s.left.id, s.right.id, s.splitKey))
    [s.left.id := Place(None, Some(s.splitKey), sh[root].level, Some(root))]
    [s.right.id := Place(Some(s.splitKey), None, sh[root].level, Some(root))]
  }

  lemma RootPage(f: Forest, sh: Shape, root: RefId, f': Forest, s: RootSplit)
    requires Inv(f, sh, root) && RootTo(f, f', root, s) && s.left.id !in sh && s.right.id !in sh
    ensures NodeOK(f', ShapeAfterRoot(sh, root, s), root)
  {
    hide Less, LeafOK, InsertChild, Mirrored;
    RootMirror(f, f', root, s);
    InsertChildFits(EMPTY_NODE, 0, s.splitKey, s.left.ref.pageID, s.right.ref.pageID);
  }

  /** The blank root page with one separator shows the cache of the two halves. */
  lemma RootMirror(f: Forest, f': Forest, root: RefId, s: RootSplit)
    requires RootTo(f, f', root, s)
    ensures Mirrored(f', f'.refs[root].children.value, f'.pages[f'.refs[root].info.pageID].node)
  {
    hide InsertChild;
    var c := Cache([root], []);
    UpdateMirrors(c, IdsOf(f'), EMPTY_NODE, 0, s.left.id, s.right.id, s.splitKey);
    assert Splice(c, 0, s.left.id, s.right.id, s.splitKey) == Cache([s.left.id, s.right.id], [s.splitKey]);
  }

  lemma RootFrame(f: Forest, sh: Shape, root: RefId, f': Forest, s: RootSplit, x: RefId)
    requires Inv(f, sh, root) && RootTo(f, f', root, s) && s.left.id !in sh && s.right.id !in sh
    requires x in sh && x != root
    ensures NodeOK(f', ShapeAfterRoot(sh, root, s), x)
  {
    hide Less, InsertChild, SeparatorsWithin;
    var sh' := ShapeAfterRoot(sh, root, s);
    assert NodeOK(f, sh, x);
    if sh[x].level > 0 {
      var c := f.refs[x].children.value;
      forall i | 0 <= i < |c.children|
        ensures c.children[i] in sh' && sh'[c.children[i]] == sh[c.children[i]]
        ensures c.children[i] in f'.refs && f'.refs[c.children[i]].pageID == f.refs[c.children[i]].pageID
      {}
    }
    NodeFrame(f, sh, f', sh', x);
  }

  lemma RootDistinct(f: Forest, sh: Shape, root: RefId, f': Forest, s: RootSplit)
    requires Inv(f, sh, root) && RootTo(f, f', root, s) && s.left.id !in sh && s.right.id !in sh
    ensures DistinctIds(f', ShapeAfterRoot(sh, root, s))
  {
    hide Less, LeafOK, InnerOK, InsertChild;
    var sh' := ShapeAfterRoot(sh, root, s);
    forall x | x in sh ensures x in f.refs && x in f'.refs && f'.refs[x].pageID == f.refs[x].pageID {
      assert NodeOK(f, sh, x);
    }
  }

  /** A root split whose halves are well-formed keeps the tree, one level higher. */
  lemma RootSplitInv(f: Forest, sh: Shape, root: RefId, f': Forest, s: RootSplit)
    requires Inv(f, sh, root) && RootTo(f, f', root, s) && s.left.id !in sh && s.right.id !in sh
    requires NodeOK(f', ShapeAfterRoot(sh, root, s), s.left.id) && NodeOK(f', ShapeAfterRoot(sh, root, s), s.right.id)
    ensures Inv(f', ShapeAfterRoot(sh, root, s), root)
  {
    hide Less, LeafOK, InnerOK, InsertChild, Reparent;
    var sh' := ShapeAfterRoot(sh, root, s);
    RootPage(f, sh, root, f', s);
    RootDistinct(f, sh, root, f', s);
    forall x | x in sh' ensures NodeOK(f', sh', x) {
      if x in sh && x != root {
        RootFrame(f, sh, root, f', s, x);
      }
    }
  }

  lemma RootRoutes(f: Forest, f': Forest, root: RefId, s: RootSplit, k: Key, level: nat)
    requires RootTo(f, f', root, s)
    ensures Lookup(f', root, k, level + 1)
            == Lookup(f', if Less(k, s.splitKey) then s.left.id else s.right.id, k, level)
  {
    hide InsertChild;
    assert CountLeq([s.splitKey], k) == if Less(k, s.splitKey) then 0 else 1;
  }

  /** Splitting a root leaf is a map update. */
  lemma RootLeafSplitDone(f: Forest, sh: Shape, root: RefId, key: Key, value: Value, f': Forest, s: RootSplit,
                          h: LeafHalves)
    requires Inv(f, sh, root) && RootTo(f, f', root, s) && s.left.id !in sh && s.right.id !in sh
    requires sh[root].level == 0 && NodeOK(f, sh, root)
    requires SplitAndSet(f.pages[f.refs[root].info.pageID].leaf, key, value) == Ok(h) && h.splitKey == s.splitKey
    requires IsLeafHalf(s.left, h.left) && IsLeafHalf(s.right, h.right)
    ensures Inv(f', ShapeAfterRoot(sh, root, s), root)
    ensures MapUpdated(f, 0, f', 1, root, key, value)
  {
    hide Less, InnerOK, InsertChild, CountLeq, LeafGet, SplitAndSet, EntryBytes, Reparent;
    SplitAndSetIsUpdate(f.pages[f.refs[root].info.pageID].leaf, key, value, None, None);
    LeafHalfOK(f, f', ShapeAfterRoot(sh, root, s), s.left, h.left);
    LeafHalfOK(f, f', ShapeAfterRoot(sh, root, s), s.right, h.right);
    RootSplitInv(f, sh, root, f', s);
    forall k ensures Lookup(f', root, k, 1) == LeafGet(HalfFor(h, k).entries, k) {
      RootRoutes(f, f', root, s, k, 0);
    }
  }

  /** Splitting an internal root changes nothing about the map. */
  lemma RootInnerSplitDone(f: Forest, sh: Shape, root: RefId, f': Forest, s: RootSplit, h: NodeHalves, left: Cache,
                           right: Cache)
    requires Inv(f, sh, root) && RootTo(f, f', root, s) && s.left.id !in sh && s.right.id !in sh
    requires sh[root].level > 0 && NodeOK(f, sh, root)
    requires NodeSplitInto(f, root, h, left, right) && s.splitKey == h.splitKey
    requires IsInnerHalf(s.left, h.left, left) && IsInnerHalf(s.right, h.right, right)
    ensures Inv(f', ShapeAfterRoot(sh, root, s), root)
    ensures MapSame(f, sh[root].level, f', sh[root].level + 1, root)
  {
    hide Less, LeafOK, InnerOK, InsertChild, CountLeq, Lookup, NodeSplit, Distribute;
    RootMoves(f, sh, root, f', s);
    InnerHalvesOK(f, sh, root, f', ShapeAfterRoot(sh, root, s), h, left, right, s.left, s.right);
    RootSplitInv(f, sh, root, f', s);
    forall k ensures Lookup(f', root, k, sh[root].level + 1) == Lookup(f, root, k, sh[root].level) {
      RootInnerLookup(f, sh, root, f', s, h, left, right, k);
    }
  }

  lemma RootMoves(f: Forest, sh: Shape, root: RefId, f': Forest, s: RootSplit)
    requires Inv(f, sh, root) && RootTo(f, f', root, s) && s.left.id !in sh && s.right.id !in sh
    ensures Moved(f, sh, f', ShapeAfterRoot(sh, root, s), root, s.left.id, s.right.id, s.splitKey)
  {
    hide Less, LeafOK, InnerOK, InsertChild;
  }

  lemma RootInnerLookup(f: Forest, sh: Shape, root: RefId, f': Forest, s: RootSplit, h: NodeHalves, left: Cache,
                        right: Cache, k: Key)
    requires Inv(f, sh, root) && RootTo(f, f', root, s)
    requires sh[root].level > 0 && NodeOK(f, sh, root)
    requires NodeSplitInto(f, root, h, left, right) && s.splitKey == h.splitKey
    requires IsInnerHalf(s.left, h.left, left) && IsInnerHalf(s.right, h.right, right)
    ensures Lookup(f', root, k, sh[root].level + 1) == Lookup(f, root, k, sh[root].level)
  {
    hide Less, LeafOK, InnerOK, InsertChild, CountLeq, Lookup, NodeSplit, Distribute;
    OKIsLinked(f, sh);
    forall x | x in sh && x != root ensures SameContent(f, f', x) {
      assert Linked(f, sh, x);
    }
    RootRoutes(f, f', root, s, k, sh[root].level);
    InnerHalfLookup(f, sh, root, f', h, left, right, s.left, s.right, k);
    assert Linked(f, sh, root);
    NextLookup(f, sh, root, k);
    Transfer(f, sh, f', root, k, Next(f, sh, root, k));
  }
}
