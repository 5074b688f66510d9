/** The three kinds of split, each with its effect on the tree invariant and on the map. */
module SplitTheorems {
  import opened Bytes
  import opened Pages
  import opened ChildrenCache
  import opened Forest
  import opened ForestSplit

  // ---------------------------------------------------------------- leaf halves

  /** Split a leaf and apply the pending write to the half its key belongs to (CR-08 in operations.go). */
  function SplitAndSet(p: LeafPage, key: Key, value: Value): (r: Result<LeafHalves>) {
    var h := LeafSplit(p);
    if h.Err? then h
    else if Less(key, h.value.splitKey) then
      var q := LeafSet(h.value.left, key, value);
      if q.Err? then Err(q.error) else Ok(h.value.(left := q.value))
    else
      var q := LeafSet(h.value.right, key, value);
      if q.Err? then Err(q.error) else Ok(h.value.(right := q.value))
  }

  /** The half of a split that holds a key. */
  ghost function HalfFor(h: LeafHalves, k: Key): LeafPage {
    if Less(k, h.splitKey) then h.left else h.right
  }

  ghost predicate HalvesWithin(h: LeafHalves, lo: Option<Key>, hi: Option<Key>) {
    && SortedEntries(h.left.entries) && LeafFits(h.left) && EntriesWithin(h.left.entries, lo, Some(h.splitKey))
    && SortedEntries(h.right.entries) && LeafFits(h.right) && EntriesWithin(h.right.entries, Some(h.splitKey), hi)
    && (lo.Some? ==> Less(lo.value, h.splitKey)) && (hi.Some? ==> Less(h.splitKey, hi.value))
  }

  /** Splitting and writing at once is one map update spread over two well-formed leaves. */
  lemma SplitAndSetIsUpdate(p: LeafPage, key: Key, value: Value, lo: Option<Key>, hi: Option<Key>)
    requires SortedEntries(p.entries) && LeafFits(p) && EntriesWithin(p.entries, lo, hi) && InRange(key, lo, hi)
    requires SplitAndSet(p, key, value).Ok?
    ensures var h := SplitAndSet(p, key, value).value;
            && HalvesWithin(h, lo, hi)
            && LeafGet(HalfFor(h, key).entries, key) == Some(value)
            && forall k :: k != key ==> LeafGet(HalfFor(h, k).entries, k) == LeafGet(p.entries, k)
  {
    var h0 := LeafSplit(p).value;
    var h := SplitAndSet(p, key, value).value;
    LeafSplitCuts(p, lo, hi);
    if Less(key, h0.splitKey) {
      LeafSetIsUpdate(h0.left, key, value, lo, Some(h0.splitKey));
    } else {
      LeafSetIsUpdate(h0.right, key, value, Some(h0.splitKey), hi);
    }
    forall k | k != key ensures LeafGet(HalfFor(h, k).entries, k) == LeafGet(p.entries, k) {
      LeafCutMapsSame(p, h0, lo, hi, k);
    }
  }

  ghost predicate IsLeafHalf(h: Half, page: LeafPage) {
    h.page == Leaf(page) && h.ref.info.isLeaf
  }

  lemma LeafHalfOK(f: Forest, f': Forest, sh': Shape, h: Half, page: LeafPage)
    requires HasHalf(f, f', h) && IsLeafHalf(h, page) && h.id in sh' && sh'[h.id].level == 0
    requires SortedEntries(page.entries) && LeafFits(page) && EntriesWithin(page.entries, sh'[h.id].lo, sh'[h.id].hi)
    ensures NodeOK(f', sh', h.id)
    ensures forall k :: Lookup(f', h.id, k, 0) == LeafGet(page.entries, k)
  {
  }

  /** A leaf split under a parent is a map update and keeps the tree. */
  lemma LeafSplitDone(f: Forest, sh: Shape, root: RefId, path: seq<PathEntry>, key: Key, value: Value, f': Forest,
                      s: Split, h: LeafHalves)
    requires SplitOK(f, sh, root, s) && SplitTo(f, f', s) && s.left.id !in sh && s.right.id !in sh
    requires IsPath(f, sh, root, key, path) && |path| >= 2
    requires s.parent == path[|path| - 2].ref && s.child == path[|path| - 1].ref && s.index == path[|path| - 2].index
    requires sh[s.child].level == 0 && NodeOK(f, sh, s.child)
    requires SplitAndSet(f.pages[f.refs[s.child].info.pageID].leaf, key, value) == Ok(h) && h.splitKey == s.splitKey
    requires IsLeafHalf(s.left, h.left) && IsLeafHalf(s.right, h.right)
    ensures Inv(f', ShapeAfterSplit(sh, s), root) && ShapeAfterSplit(sh, s)[root] == sh[root]
    ensures MapUpdated(f, sh[root].level, f', sh[root].level, root, key, value)
  {
    hide Less, InnerOK, InsertChild, Splice, CountLeq, LeafGet, SplitAndSet, EntryBytes;
    var leaf := f.pages[f.refs[s.child].info.pageID].leaf;
    assert OnPath(sh, key, path, |path| - 1) && OnPath(sh, key, path, |path| - 2);
    SplitAndSetIsUpdate(leaf, key, value, sh[s.child].lo, sh[s.child].hi);
    LeafHalfOK(f, f', ShapeAfterSplit(sh, s), s.left, h.left);
    LeafHalfOK(f, f', ShapeAfterSplit(sh, s), s.right, h.right);
    SplitInv(f, sh, root, f', s);
    forall k | k != key ensures Lookup(f', root, k, sh[root].level) == Lookup(f, root, k, sh[root].level) {
      SplitLookup(f, sh, root, f', s, k);
    }
    SplitPathLookup(f, sh, root, path, key, f', s);
  }

  /** After a split, the path's key is read from the half it belongs to. */
  lemma SplitPathLookup(f: Forest, sh: Shape, root: RefId, path: seq<PathEntry>, key: Key, f': Forest, s: Split)
    requires SplitOK(f, sh, root, s) && SplitTo(f, f', s)
    requires IsPath(f, sh, root, key, path) && |path| >= 2
    requires s.parent == path[|path| - 2].ref && s.index == path[|path| - 2].index
    ensures Lookup(f', root, key, sh[root].level)
            == Lookup(f', if Less(key, s.splitKey) then s.left.id else s.right.id, key, 0)
  {
    hide Less, LeafOK, InnerOK, InsertChild, Splice, CountLeq, Lookup;
    var n := |path| - 2;
    SameAfterSplit(f, sh, root, f', s);
    OKIsLinked(f, sh);
    forall m | 0 <= m < n ensures SameContent(f, f', path[m].ref) {
      assert OnPath(sh, key, path, m) && OnPath(sh, key, path, n);
    }
    PathLookup(f, sh, f', root, key, path, 0, n);
    assert OnPath(sh, key, path, n) && StepsTo(f, key, path[n], path[n + 1].ref);
    SplitRoutes(f, sh, root, f', s, key);
  }

  // ---------------------------------------------------------------- internal halves

  /** `h` is the half of an internal split: page and cache halves, ready to be read. */
  ghost predicate IsInnerHalf(h: Half, page: NodePage, c: Cache) {
    h.page == Node(page) && !h.ref.info.isLeaf && h.ref.children == Some(c)
  }

  /** The pages and caches of a split node. */
  ghost predicate NodeSplitInto(f: Forest, r: RefId, h: NodeHalves, left: Cache, right: Cache)
    requires r in f.refs && f.refs[r].info.pageID in f.pages && f.pages[f.refs[r].info.pageID].Node?
    requires f.refs[r].children.Some?
             && |f.refs[r].children.value.children| == |f.refs[r].children.value.separators| + 1
  {
    var c := f.refs[r].children.value;
    && NodeSplit(f.refs[r].info.pageID, f.pages[f.refs[r].info.pageID].node) == Ok(h)
    && Distribute(c, |NodeChildren(h.left)|) == CacheHalves(Some(left), Some(right))
  }

  /** Cutting separators and children around the middle key. */
  ghost predicate CacheCut(c: Cache, left: Cache, right: Cache, m: nat) {
    && |c.children| == |c.separators| + 1 && m < |c.separators|
    && left == Cache(c.children[..m + 1], c.separators[..m])
    && right == Cache(c.children[m + 1..], c.separators[m + 1..])
  }

  lemma NodeSplitIsCut(f: Forest, id: PageID, c: Cache, node: NodePage, h: NodeHalves, left: Cache, right: Cache)
    requires Mirrored(f, c, node) && NodeSplit(id, node) == Ok(h)
    requires Distribute(c, |NodeChildren(h.left)|) == CacheHalves(Some(left), Some(right))
    ensures var m := |c.separators| / 2;
            && CacheCut(c, left, right, m) && h.splitKey == c.separators[m]
            && Mirrored(f, left, h.left) && Mirrored(f, right, h.right)
  {
    hide Less, NodeSplit, NodeKeys, NodeChildren, Distribute;
    NodeSplitCuts(id, node);
    DistributeIsCut(c, left, right, |c.separators| / 2);
    DistributeMirrors(c, IdsOf(f), id, node);
  }

  lemma DistributeIsCut(c: Cache, left: Cache, right: Cache, m: nat)
    requires |c.children| == |c.separators| + 1 && m < |c.separators|
    requires Distribute(c, m + 1) == CacheHalves(Some(left), Some(right))
    ensures CacheCut(c, left, right, m)
  {
  }

  /** The cut separators stay ordered, inside the two halves of the range. */
  lemma CutWithin(p: Place, c: Cache, left: Cache, right: Cache, m: nat)
    requires CacheCut(c, left, right, m) && SeparatorsWithin(c.separators, p.lo, p.hi)
    ensures Between(p, c.separators[m])
    ensures SeparatorsWithin(left.separators, p.lo, Some(c.separators[m]))
    ensures SeparatorsWithin(right.separators, Some(c.separators[m]), p.hi)
  {
  }

  /** A cut routes every key to the same child as before, through the half it belongs to. */
  lemma CutRoutes(p: Place, c: Cache, left: Cache, right: Cache, m: nat, k: Key)
    requires CacheCut(c, left, right, m) && SeparatorsWithin(c.separators, p.lo, p.hi)
    ensures var half := if Less(k, c.separators[m]) then left else right;
            && CountLeq(half.separators, k) < |half.children|
            && half.children[CountLeq(half.separators, k)] == c.children[CountLeq(c.separators, k)]
  {
    var j := CountLeq(c.separators, k);
    CountLeqCuts(c.separators, k);
    CutWithin(p, c, left, right, m);
    if Less(k, c.separators[m]) {
      CutIsCount(left.separators, k, j);
    } else {
      CutIsCount(right.separators, k, j - m - 1);
    }
  }

  /** Children of the split page have moved under their half and kept everything else. */
  ghost predicate Moved(f: Forest, sh: Shape, f': Forest, sh': Shape, r: RefId, left: RefId, right: RefId, s: Key) {
    forall x {:trigger x in sh'} :: x in sh && sh[x].parent == Some(r) && x in f.refs ==>
      && x in sh' && sh'[x] == Reparent(sh[x], r, left, right, s)
      && x in f'.refs && f'.refs[x].pageID == f.refs[x].pageID
  }

  lemma MovedChild(f: Forest, sh: Shape, f': Forest, sh': Shape, r: RefId, lid: RefId, rid: RefId, m: nat, j: nat)
    requires r in sh && sh[r].level > 0 && NodeOK(f, sh, r)
    requires var c := f.refs[r].children.value; m < |c.separators| && j < |c.children|
    requires Moved(f, sh, f', sh', r, lid, rid, f.refs[r].children.value.separators[m])
    ensures var c := f.refs[r].children.value;
            var x := c.children[j];
            && x in f.refs && x in f'.refs && f'.refs[x].pageID == f.refs[x].pageID && x in sh'
            && sh'[x] == sh[x].(parent := Some(if j <= m then lid else rid))
  {
    hide LeafOK, Less, NodeKeys, NodeChildren;
    var c, p := f.refs[r].children.value, sh[r];
    var s := c.separators[m];
    var x := c.children[j];
    assert x in sh && sh[x].parent == Some(r) && sh[x].hi == ChildHi(p, c, j);
    LessIrreflexive(s);
    if j < m {
      LessAsymmetric(c.separators[j], s);
    }
    assert (ChildHi(p, c, j).Some? && !Less(s, ChildHi(p, c, j).value)) <==> j <= m;
  }

  /** Each child of the half `c` sits where the half's separators say. */
  ghost predicate Placed(f: Forest, f': Forest, sh': Shape, id: RefId, c: Cache)
    requires id in sh' && sh'[id].level > 0 && |c.children| == |c.separators| + 1
  {
    forall j :: 0 <= j < |c.children| ==>
      && c.children[j] in f.refs && c.children[j] in f'.refs
         && f'.refs[c.children[j]].pageID == f.refs[c.children[j]].pageID
      && c.children[j] in sh'
      && sh'[c.children[j]] == Place(ChildLo(sh'[id], c, j), ChildHi(sh'[id], c, j), sh'[id].level - 1, Some(id))
  }

  lemma InnerHalfOK(f: Forest, f': Forest, sh': Shape, a: Half, page: NodePage, c: Cache)
    requires HasHalf(f, f', a) && IsInnerHalf(a, page, c) && a.id in sh' && sh'[a.id].level > 0
    requires Mirrored(f, c, page) && NodeFits(page) && SeparatorsWithin(c.separators, sh'[a.id].lo, sh'[a.id].hi)
    requires Placed(f, f', sh', a.id, c)
    ensures NodeOK(f', sh', a.id)
  {
    hide Less, LeafOK;
  }

  lemma HalvesPlaced(f: Forest, sh: Shape, r: RefId, f': Forest, sh': Shape, left: Cache, right: Cache, m: nat,
                     a: RefId, b: RefId)
    requires r in sh && sh[r].level > 0 && NodeOK(f, sh, r) && CacheCut(f.refs[r].children.value, left, right, m)
    requires var s := f.refs[r].children.value.separators[m];
             && a in sh' && sh'[a].(parent := None) == Place(sh[r].lo, Some(s), sh[r].level, None)
             && b in sh' && sh'[b].(parent := None) == Place(Some(s), sh[r].hi, sh[r].level, None)
             && Moved(f, sh, f', sh', r, a, b, s)
    ensures Placed(f, f', sh', a, left) && Placed(f, f', sh', b, right)
  {
    hide Less, LeafOK, Reparent, Mirrored, Moved;
    var c, p := f.refs[r].children.value, sh[r];
    forall j | 0 <= j < |left.children|
      ensures var x := left.children[j];
              && x in f.refs && x in f'.refs && f'.refs[x].pageID == f.refs[x].pageID && x in sh'
              && sh'[x] == Place(ChildLo(sh'[a], left, j), ChildHi(sh'[a], left, j), p.level - 1, Some(a))
    {
      MovedChild(f, sh, f', sh', r, a, b, m, j);
      assert sh[c.children[j]] == Place(ChildLo(p, c, j), ChildHi(p, c, j), p.level - 1, Some(r));
    }
    forall j | 0 <= j < |right.children|
      ensures var x := right.children[j];
              && x in f.refs && x in f'.refs && f'.refs[x].pageID == f.refs[x].pageID && x in sh'
              && sh'[x] == Place(ChildLo(sh'[b], right, j), ChildHi(sh'[b], right, j), p.level - 1, Some(b))
    {
      MovedChild(f, sh, f', sh', r, a, b, m, m + 1 + j);
      assert sh[c.children[m + 1 + j]]
             == Place(ChildLo(p, c, m + 1 + j), ChildHi(p, c, m + 1 + j), p.level - 1, Some(r));
    }
  }

  /** Both halves of an internal split are well-formed pages that mirror their caches. */
  lemma InnerHalvesOK(f: Forest, sh: Shape, r: RefId, f': Forest, sh': Shape, h: NodeHalves, left: Cache, right: Cache,
                      a: Half, b: Half)
    requires r in sh && sh[r].level > 0 && NodeOK(f, sh, r) && NodeSplitInto(f, r, h, left, right)
    requires HasHalf(f, f', a) && HasHalf(f, f', b) && IsInnerHalf(a, h.left, left) && IsInnerHalf(b, h.right, right)
    requires a.id in sh' && sh'[a.id].(parent := None) == Place(sh[r].lo, Some(h.splitKey), sh[r].level, None)
    requires b.id in sh' && sh'[b.id].(parent := None) == Place(Some(h.splitKey), sh[r].hi, sh[r].level, None)
    requires Moved(f, sh, f', sh', r, a.id, b.id, h.splitKey)
    ensures NodeOK(f', sh', a.id) && NodeOK(f', sh', b.id) && Between(sh[r], h.splitKey)
  {
    hide Less, LeafOK, NodeSplit, Distribute, Reparent, Moved, Mirrored, NodeFits;
    var c := f.refs[r].children.value;
    NodeSplitIsCut(f, f.refs[r].info.pageID, c, f.pages[f.refs[r].info.pageID].node, h, left, right);
    var m := |c.separators| / 2;
    CutWithin(sh[r], c, left, right, m);
    HalvesPlaced(f, sh, r, f', sh', left, right, m, a.id, b.id);
    NodeSplitFits(f.refs[r].info.pageID, f.pages[f.refs[r].info.pageID].node);
    InnerHalfOK(f, f', sh', a, h.left, left);
    InnerHalfOK(f, f', sh', b, h.right, right);
  }

  /** A half reads its keys from the same children as the page it came from. */
  lemma InnerHalfLookup(f: Forest, sh: Shape, r: RefId, f': Forest, h: NodeHalves, left: Cache, right: Cache, a: Half,
                        b: Half, k: Key)
    requires r in sh && sh[r].level > 0 && NodeOK(f, sh, r) && NodeSplitInto(f, r, h, left, right)
    requires HasHalf(f, f', a) && HasHalf(f, f', b) && IsInnerHalf(a, h.left, left) && IsInnerHalf(b, h.right, right)
    ensures var c := f.refs[r].children.value;
            && CountLeq(c.separators, k) < |c.children|
            && Lookup(f', if Less(k, h.splitKey) then a.id else b.id, k, sh[r].level)
               == Lookup(f', c.children[CountLeq(c.separators, k)], k, sh[r].level - 1)
  {
    hide LeafOK, NodeSplit, Less, CountLeq;
    var c := f.refs[r].children.value;
    NodeSplitIsCut(f, f.refs[r].info.pageID, c, f.pages[f.refs[r].info.pageID].node, h, left, right);
    CutRoutes(sh[r], c, left, right, |c.separators| / 2, k);
  }

  /** Splitting an internal page below its parent changes nothing about the map. */
  lemma InnerSplitDone(f: Forest, sh: Shape, root: RefId, f': Forest, s: Split, h: NodeHalves, left: Cache,
                       right: Cache)
    requires SplitOK(f, sh, root, s) && SplitTo(f, f', s) && s.left.id !in sh && s.right.id !in sh
    requires sh[s.child].level > 0 && NodeOK(f, sh, s.child)
    requires NodeSplitInto(f, s.child, h, left, right) && s.splitKey == h.splitKey
    requires IsInnerHalf(s.left, h.left, left) && IsInnerHalf(s.right, h.right, right)
    ensures Inv(f', ShapeAfterSplit(sh, s), root) && ShapeAfterSplit(sh, s)[root] == sh[root]
    ensures MapSame(f, sh[root].level, f', sh[root].level, root)
  {
    hide Less, LeafOK, InnerOK, InsertChild, Splice, CountLeq, Lookup, NodeSplit, Distribute;
    SplitMoves(f, sh, root, f', s);
    InnerHalvesOK(f, sh, s.child, f', ShapeAfterSplit(sh, s), h, left, right, s.left, s.right);
    SplitInv(f, sh, root, f', s);
    forall k ensures Lookup(f', root, k, sh[root].level) == Lookup(f, root, k, sh[root].level) {
      InnerSplitLookup(f, sh, root, f', s, h, left, right, k);
    }
  }

  lemma SplitMoves(f: Forest, sh: Shape, root: RefId, f': Forest, s: Split)
    requires SplitOK(f, sh, root, s) && SplitTo(f, f', s) && s.left.id !in sh && s.right.id !in sh
    ensures Moved(f, sh, f', ShapeAfterSplit(sh, s), s.child, s.left.id, s.right.id, s.splitKey)
  {
    hide Less, LeafOK, InnerOK, InsertChild, Splice;
    assert sh[s.child].parent == Some(s.parent) && s.parent != s.child;
  }

  lemma InnerSplitLookup(f: Forest, sh: Shape, root: RefId, f': Forest, s: Split, h: NodeHalves, left: Cache,
                         right: Cache, k: Key)
    requires SplitOK(f, sh, root, s) && SplitTo(f, f', s)
    requires sh[s.child].level > 0 && NodeOK(f, sh, s.child)
    requires NodeSplitInto(f, s.child, h, left, right) && s.splitKey == h.splitKey
    requires IsInnerHalf(s.left, h.left, left) && IsInnerHalf(s.right, h.right, right)
    ensures Lookup(f', root, k, sh[root].level) == Lookup(f, root, k, sh[root].level)
  {
    hide Less, LeafOK, InnerOK, InsertChild, Splice, CountLeq, Lookup, NodeSplit, Distribute;
    OKIsLinked(f, sh);
    SameAfterSplit(f, sh, root, f', s);
    InnerHalfLookup(f, sh, s.child, f', h, left, right, s.left, s.right, k);
    assert Linked(f, sh, s.child);
    NextLookup(f, sh, s.child, k);
    Transfer(f, sh, f', s.parent, k, Next(f, sh, s.child, k));
    SplitLookup(f, sh, root, f', s, k);
  }
}
