/**
 Putting a split into effect: the page references and pages each handler of operations.go builds,
 and what the whole step does to the tree.
 */
module Publish {
  import opened Bytes
  import opened Pages
  import opened ChildrenCache
  import opened Forest
  import opened ForestSplit
  import opened SplitTheorems
  import opened RootSplit
  import opened PageSupply

  const ROOT: RefId := 0

  /** References are below their counter, and no page in use or held by a reference can be handed out again. */
  ghost predicate Counted(f: Forest, sh: Shape, nextRef: RefId, a: Supply) {
    && (forall r :: r in f.refs ==> r < nextRef && !InSupply(a, f.refs[r].pageID))
    && (forall r :: r in sh ==> r in f.refs)
    && (forall id :: id in f.pages ==> !InSupply(a, id))
    && SupplyOK(a)
  }

  lemma CountedWithin(f: Forest, sh: Shape, nextRef: RefId, a: Supply, b: Supply)
    requires Counted(f, sh, nextRef, a) && Within(b, a)
    ensures Counted(f, sh, nextRef, b)
  {
  }

  /** No reference but those in `busy` carries the transient splitting mark. */
  ghost predicate Quiet(f: Forest, sh: Shape, busy: set<RefId>) {
    forall r :: r in sh && r in f.refs && r !in busy ==> f.refs[r].info.state != Splitting
  }

  /** `NewPageRef` for a leaf; the internal split handlers override the page info. */
  function NewHalf(id: RefId, pageID: PageID, isLeaf: bool, children: Option<Cache>, page: Page): Half {
    Half(id, PageRef(pageID, PageInfo(pageID, if isLeaf then 0 else 1, isLeaf, Normal, false), children), page)
  }

  ghost predicate HalfCounted(h: Half, nextRef: RefId, a: Supply) {
    h.id < nextRef && !InSupply(a, h.ref.pageID) && h.ref.info.state != Splitting
  }

  lemma NewHalfFresh(f: Forest, sh: Shape, nextRef: RefId, a: Supply, h: Half, b: Supply)
    requires Counted(f, sh, nextRef, a)
    requires h.id >= nextRef && Drawn(a, b, h.ref.pageID)
    requires h.ref.info.pageID == h.ref.pageID && h.ref.info.state == Normal && !h.ref.info.redirect
    ensures FreshHalf(f, h) && HalfCounted(h, h.id + 1, b) && h.id !in sh
  {
  }

  // ---------------------------------------------------------------- splits below a parent

  lemma SplitCounted(f: Forest, sh: Shape, s: Split, nextRef: RefId, b: Supply)
    requires s.parent in f.refs && s.child in f.refs && s.parent != s.child && f.refs[s.parent].children.Some?
    requires var c := f.refs[s.parent].children.value; s.index < |c.children| == |c.separators| + 1
    requires FreshSplit(f, s) && s.child in sh && s.left.id !in sh && s.right.id !in sh
    requires s.childInfo.isLeaf == f.refs[s.child].info.isLeaf && s.childInfo.pageID == f.refs[s.child].info.pageID
    requires Counted(f, sh, nextRef, b) && Quiet(f, sh, {s.child})
    requires HalfCounted(s.left, nextRef, b) && HalfCounted(s.right, nextRef, b)
    requires !InSupply(b, s.parentInfo.pageID) && s.parentInfo.state != Splitting
    ensures var f' := ApplySplit(f, s);
            SplitTo(f, f', s) && Counted(f', ShapeAfterSplit(sh, s), nextRef, b)
              && Quiet(f', ShapeAfterSplit(sh, s), {})
  {
    hide Splice, ApplySplit, Reparent;
    ApplyIsSplitTo(f, s);
  }

  /** The split of `child`, entry `i` of `parent`, into two new references numbered from `nextRef`. */
  function SplitOf(f: Forest, parent: RefId, child: RefId, i: nat, left: Half, right: Half, splitKey: Key,
                   parentPage: NodePage, parentID: PageID): Split
    requires parent in f.refs && child in f.refs
  {
    var p, c := f.refs[parent].info, f.refs[child].info;
    Split(parent, i, child, left, right, splitKey,
          PageInfo(parentID, p.version + 1, false, p.state, false), parentPage,
          PageInfo(c.pageID, c.version + 1, c.isLeaf, Redirect, true))
  }

  /** `child` is entry `i` of the internal page `parent`, and nothing else is being split. */
  ghost predicate Splittable(f: Forest, sh: Shape, parent: RefId, child: RefId, i: nat, nextRef: RefId, a: Supply) {
    && Inv(f, sh, ROOT) && Counted(f, sh, nextRef, a) && Quiet(f, sh, {child})
    && parent in sh && sh[parent].level > 0 && NodeOK(f, sh, parent)
    && child in sh && NodeOK(f, sh, child)
    && i < |f.refs[parent].children.value.children| && f.refs[parent].children.value.children[i] == child
  }

  /** Everything a published split needs, from freshly numbered halves. */
  lemma SplitReady(f: Forest, sh: Shape, nextRef: RefId, a: Supply, s: Split, b: Supply)
    requires Splittable(f, sh, s.parent, s.child, s.index, nextRef, a) && Within(b, a)
    requires s == SplitOf(f, s.parent, s.child, s.index, s.left, s.right, s.splitKey, s.parentPage, s.parentInfo.pageID)
    requires s.left == NewHalf(nextRef, s.left.ref.pageID, s.left.ref.info.isLeaf, s.left.ref.children, s.left.page)
    requires s.right == NewHalf(nextRef + 1, s.right.ref.pageID, s.right.ref.info.isLeaf, s.right.ref.children,
                                s.right.page)
    requires Drawn(a, b, s.left.ref.pageID) && Drawn(a, b, s.right.ref.pageID) && Drawn(a, b, s.parentInfo.pageID)
    requires s.left.ref.pageID != s.right.ref.pageID && s.parentInfo.pageID != s.left.ref.pageID
             && s.parentInfo.pageID != s.right.ref.pageID
    requires InsertChild(f.pages[f.refs[s.parent].info.pageID].node, s.index, s.splitKey, s.left.ref.pageID,
                         s.right.ref.pageID)
             == Ok(s.parentPage)
    requires Between(sh[s.child], s.splitKey)
    ensures var f' := ApplySplit(f, s);
            && SplitOK(f, sh, ROOT, s) && SplitTo(f, f', s) && s.left.id !in sh && s.right.id !in sh
            && Counted(f', ShapeAfterSplit(sh, s), nextRef + 2, b) && Quiet(f', ShapeAfterSplit(sh, s), {})
  {
    hide Less, LeafOK, InsertChild, Splice, ApplySplit, NodeKeys, NodeChildren, SeparatorsWithin, SplitTo, FreshHalf,
      Quiet, HalfCounted;
    NewHalfFresh(f, sh, nextRef, a, s.left, b);
    NewHalfFresh(f, sh, nextRef, a, s.right, b);
    ChildPlace(f, sh, s.parent, s.index);
    FreshFacts(f, sh, s, nextRef, a, b);
    SplitCounted(f, sh, s, nextRef + 2, b);
  }

  lemma FreshFacts(f: Forest, sh: Shape, s: Split, nextRef: RefId, a: Supply, b: Supply)
    requires Counted(f, sh, nextRef, a) && Within(b, a) && Quiet(f, sh, {s.child})
    requires FreshHalf(f, s.left) && FreshHalf(f, s.right) && s.left.id == nextRef && s.right.id == nextRef + 1
    requires HalfCounted(s.left, nextRef + 1, b) && HalfCounted(s.right, nextRef + 2, b)
    requires s.left.ref.pageID != s.right.ref.pageID && s.parentInfo.pageID != s.left.ref.pageID
             && s.parentInfo.pageID != s.right.ref.pageID
    requires Drawn(a, b, s.parentInfo.pageID) && !s.parentInfo.isLeaf && !s.parentInfo.redirect
    requires s.parent in sh && s.parent != s.child && NodeOK(f, sh, s.parent)
             && s.parentInfo.state == f.refs[s.parent].info.state
    ensures FreshSplit(f, s) && Counted(f, sh, nextRef + 2, b) && s.parentInfo.state != Splitting
    ensures HalfCounted(s.left, nextRef + 2, b) && HalfCounted(s.right, nextRef + 2, b)
  {
    hide LeafOK, InnerOK;
  }

  /** Where a child sits. */
  lemma ChildPlace(f: Forest, sh: Shape, r: RefId, i: nat)
    requires r in sh && sh[r].level > 0 && NodeOK(f, sh, r) && i < |f.refs[r].children.value.children|
    ensures var x := f.refs[r].children.value.children[i];
            x in sh && sh[x].parent == Some(r) && sh[x].level + 1 == sh[r].level
  {
  }

  // ---------------------------------------------------------------- leaf splits

  /** The split `handleLeafSplit` publishes: the written half gets the page of the second copy. */
  function LeafSplitOf(f: Forest, parent: RefId, child: RefId, i: nat, key: Key, h: LeafHalves, parentPage: NodePage,
                       nextRef: RefId, ids: LeafIds): Split
    requires parent in f.refs && child in f.refs
  {
    SplitOf(f, parent, child, i, NewHalf(nextRef, LeftID(key, h, ids), true, None, Leaf(h.left)),
            NewHalf(nextRef + 1, RightID(key, h, ids), true, None, Leaf(h.right)), h.splitKey, parentPage, ids.parent)
  }

  /** The pages of a leaf split: both halves, the second copy of the written half, and the parent page. */
  datatype LeafIds = LeafIds(left: PageID, right: PageID, copy: PageID, parent: PageID)

  function LeftID(key: Key, h: LeafHalves, ids: LeafIds): PageID {
    if Less(key, h.splitKey) then ids.copy else ids.left
  }

  function RightID(key: Key, h: LeafHalves, ids: LeafIds): PageID {
    if Less(key, h.splitKey) then ids.right else ids.copy
  }

  /** The half that the second copy replaces; its page is freed. */
  function OrphanID(key: Key, h: LeafHalves, ids: LeafIds): PageID {
    if Less(key, h.splitKey) then ids.left else ids.right
  }

  /** The pages a leaf split uses in the end are new and distinct; the orphan may serve as parent page. */
  ghost predicate LeafIdsOK(key: Key, h: LeafHalves, ids: LeafIds, a: Supply, b: Supply) {
    && Within(b, a) && Drawn(a, b, LeftID(key, h, ids)) && Drawn(a, b, RightID(key, h, ids)) && Drawn(a, b, ids.parent)
    && LeftID(key, h, ids) != RightID(key, h, ids)
    && ids.parent != LeftID(key, h, ids) && ids.parent != RightID(key, h, ids)
  }

  /** The whole of `handleLeafSplit` up to the cascade: a map update on a tree that stays a tree. */
  lemma LeafSplitPublished(f: Forest, sh: Shape, path: seq<PathEntry>, key: Key, value: Value, h: LeafHalves,
                           parentPage: NodePage, nextRef: RefId, ids: LeafIds, a: Supply, b: Supply)
    requires |path| >= 2 && IsPath(f, sh, ROOT, key, path)
    requires path[|path| - 2].index >= 0 && LeafIdsOK(key, h, ids, a, b)
    requires Splittable(f, sh, path[|path| - 2].ref, path[|path| - 1].ref, path[|path| - 2].index, nextRef, a)
    requires sh[path[|path| - 1].ref].level == 0
    requires SplitAndSet(f.pages[f.refs[path[|path| - 1].ref].info.pageID].leaf, key, value) == Ok(h)
    requires InsertChild(f.pages[f.refs[path[|path| - 2].ref].info.pageID].node, path[|path| - 2].index, h.splitKey,
                         LeftID(key, h, ids), RightID(key, h, ids)) == Ok(parentPage)
    ensures var s := LeafSplitOf(f, path[|path| - 2].ref, path[|path| - 1].ref, path[|path| - 2].index, key, h,
                                 parentPage, nextRef, ids);
            Published(f, sh, s, ApplySplit(f, s), nextRef + 2, b)
            && SplitOK(f, sh, ROOT, s) && SplitTo(f, ApplySplit(f, s), s)
            && MapUpdated(f, sh[ROOT].level, ApplySplit(f, s), sh[ROOT].level, ROOT, key, value)
  {
    hide Less, InsertChild, Splice, CountLeq, LeafGet, Lookup, SplitAndSet, LeafFits, ApplySplit, LeftID, RightID,
      SplitTo, Quiet, NodeKeys, NodeChildren, SeparatorsWithin;
    var n := |path| - 2;
    var s := LeafSplitOf(f, path[n].ref, path[n + 1].ref, path[n].index, key, h, parentPage, nextRef, ids);
    assert OnPath(sh, key, path, n + 1);
    SplitAndSetIsUpdate(f.pages[f.refs[s.child].info.pageID].leaf, key, value, sh[s.child].lo, sh[s.child].hi);
    SplitReady(f, sh, nextRef, a, s, b);
    LeafSplitDone(f, sh, ROOT, path, key, value, ApplySplit(f, s), s, h);
  }

  /** The tree after a published split. */
  ghost predicate Published(f: Forest, sh: Shape, s: Split, f': Forest, nextRef: RefId, b: Supply) {
    && s.child in sh && s.left.id !in sh && s.right.id !in sh && s.left.id != s.right.id
    && var sh' := ShapeAfterSplit(sh, s);
    && Inv(f', sh', ROOT) && ROOT in sh && sh'[ROOT] == sh[ROOT]
    && Counted(f', sh', nextRef, b) && Quiet(f', sh', {})
  }

  // ---------------------------------------------------------------- internal splits

  function InnerSplitOf(f: Forest, parent: RefId, child: RefId, i: nat, h: NodeHalves, caches: CacheHalves,
                        parentPage: NodePage, nextRef: RefId, ids: InnerIds): Split
    requires parent in f.refs && child in f.refs
  {
    SplitOf(f, parent, child, i, NewHalf(nextRef, ids.left, false, caches.left, Node(h.left)),
            NewHalf(nextRef + 1, ids.right, false, caches.right, Node(h.right)), h.splitKey, parentPage, ids.parent)
  }

  /** The pages of an internal split: both halves and the page above them. */
  datatype InnerIds = InnerIds(left: PageID, right: PageID, parent: PageID)

  ghost predicate InnerIdsOK(ids: InnerIds, a: Supply, b: Supply) {
    && Within(b, a) && Drawn(a, b, ids.left) && Drawn(a, b, ids.right) && Drawn(a, b, ids.parent)
    && ids.left != ids.right && ids.parent != ids.left && ids.parent != ids.right
  }

  /** One round of `handleInternalSplit` below the root: the tree stays a tree and the map is unchanged. */
  lemma InnerSplitPublished(f: Forest, sh: Shape, parent: RefId, child: RefId, i: nat, h: NodeHalves, left: Cache,
                            right: Cache, parentPage: NodePage, nextRef: RefId, ids: InnerIds, a: Supply, b: Supply)
    requires Splittable(f, sh, parent, child, i, nextRef, a) && sh[child].level > 0 && InnerIdsOK(ids, a, b)
    requires NodeSplitInto(f, child, h, left, right)
    requires InsertChild(f.pages[f.refs[parent].info.pageID].node, i, h.splitKey, ids.left, ids.right) == Ok(parentPage)
    ensures var s := InnerSplitOf(f, parent, child, i, h, CacheHalves(Some(left), Some(right)), parentPage, nextRef,
                                  ids);
            Published(f, sh, s, ApplySplit(f, s), nextRef + 2, b)
            && SplitOK(f, sh, ROOT, s) && SplitTo(f, ApplySplit(f, s), s)
            && MapSame(f, sh[ROOT].level, ApplySplit(f, s), sh[ROOT].level, ROOT)
  {
    hide Less, LeafOK, InsertChild, Splice, CountLeq, Lookup, NodeSplit, Distribute, ApplySplit, SplitTo, Quiet,
      NodeKeys, NodeChildren, SeparatorsWithin;
    var s := InnerSplitOf(f, parent, child, i, h, CacheHalves(Some(left), Some(right)), parentPage, nextRef, ids);
    SplitKeyBetween(f, sh, child, h, left, right);
    SplitReady(f, sh, nextRef, a, s, b);
    InnerSplitDone(f, sh, ROOT, ApplySplit(f, s), s, h, left, right);
  }

  /** The key that moves up lies strictly inside the range of the split page. */
  lemma SplitKeyBetween(f: Forest, sh: Shape, r: RefId, h: NodeHalves, left: Cache, right: Cache)
    requires r in sh && sh[r].level > 0 && NodeOK(f, sh, r) && NodeSplitInto(f, r, h, left, right)
    ensures Between(sh[r], h.splitKey)
  {
    hide Less, LeafOK, NodeSplit, Distribute;
    var c := f.refs[r].children.value;
    NodeSplitIsCut(f, f.refs[r].info.pageID, c, f.pages[f.refs[r].info.pageID].node, h, left, right);
    CutWithin(sh[r], c, left, right, |c.separators| / 2);
  }

  /** Node splits always hand out both halves of the children cache. */
  lemma DistributeBoth(f: Forest, id: PageID, c: Cache, node: NodePage, h: NodeHalves)
    requires Mirrored(f, c, node) && NodeSplit(id, node) == Ok(h)
    ensures var d := Distribute(c, |NodeChildren(h.left)|); d.left.Some? && d.right.Some?
  {
    hide NodeSplit;
    NodeSplitCuts(id, node);
  }

  // ---------------------------------------------------------------- root splits

  lemma RootCounted(f: Forest, sh: Shape, s: RootSplit, nextRef: RefId, b: Supply)
    requires ROOT in f.refs && ROOT in sh && FreshHalf(f, s.left) && FreshHalf(f, s.right)
    requires s.left.id != s.right.id && s.left.ref.pageID != s.right.ref.pageID
    requires s.info.pageID !in f.pages && s.info.pageID != s.left.ref.pageID && s.info.pageID != s.right.ref.pageID
    requires !s.info.isLeaf && Usable(s.info) && s.left.id !in sh && s.right.id !in sh
    requires InsertChild(EMPTY_NODE, 0, s.splitKey, s.left.ref.pageID, s.right.ref.pageID) == Ok(s.page)
    requires Counted(f, sh, nextRef, b) && Quiet(f, sh, {ROOT})
    requires HalfCounted(s.left, nextRef, b) && HalfCounted(s.right, nextRef, b)
    requires !InSupply(b, s.info.pageID) && s.info.state != Splitting
    ensures var f' := ApplyRoot(f, ROOT, s);
            RootTo(f, f', ROOT, s) && Counted(f', ShapeAfterRoot(sh, ROOT, s), nextRef, b)
              && Quiet(f', ShapeAfterRoot(sh, ROOT, s), {})
  {
    hide InsertChild, ApplyRoot, Reparent;
    ApplyIsRootTo(f, ROOT, s);
  }

  lemma RootReady(f: Forest, sh: Shape, nextRef: RefId, a: Supply, s: RootSplit, b: Supply)
    requires ROOT in sh && Counted(f, sh, nextRef, a) && Quiet(f, sh, {ROOT})
    requires s.left == NewHalf(nextRef, s.left.ref.pageID, s.left.ref.info.isLeaf, s.left.ref.children, s.left.page)
    requires s.right == NewHalf(nextRef + 1, s.right.ref.pageID, s.right.ref.info.isLeaf, s.right.ref.children,
                                s.right.page)
    requires Drawn(a, b, s.left.ref.pageID) && Drawn(a, b, s.right.ref.pageID) && Drawn(a, b, s.info.pageID)
             && Within(b, a)
    requires s.left.ref.pageID != s.right.ref.pageID && s.info.pageID != s.left.ref.pageID
             && s.info.pageID != s.right.ref.pageID
    requires !s.info.isLeaf && Usable(s.info) && s.info.state != Splitting
    requires InsertChild(EMPTY_NODE, 0, s.splitKey, s.left.ref.pageID, s.right.ref.pageID) == Ok(s.page)
    ensures var f' := ApplyRoot(f, ROOT, s);
            && RootTo(f, f', ROOT, s) && s.left.id !in sh && s.right.id !in sh
            && Counted(f', ShapeAfterRoot(sh, ROOT, s), nextRef + 2, b) && Quiet(f', ShapeAfterRoot(sh, ROOT, s), {})
  {
    hide InsertChild, ApplyRoot, RootTo, FreshHalf, Quiet;
    NewHalfFresh(f, sh, nextRef, a, s.left, b);
    NewHalfFresh(f, sh, nextRef, a, s.right, b);
    assert s.info.pageID !in f.pages;
    CountedWithin(f, sh, nextRef, a, b);
    RootCounted(f, sh, s, nextRef + 2, b);
  }

  ghost predicate RootPublished(f: Forest, sh: Shape, s: RootSplit, f': Forest, nextRef: RefId, b: Supply) {
    && ROOT in sh && s.left.id !in sh && s.right.id !in sh && s.left.id != s.right.id
    && var sh' := ShapeAfterRoot(sh, ROOT, s);
    && Inv(f', sh', ROOT) && Counted(f', sh', nextRef, b) && Quiet(f', sh', {})
  }

  function RootLeafSplitOf(f: Forest, key: Key, h: LeafHalves, page: NodePage, nextRef: RefId, ids: LeafIds): RootSplit
    requires ROOT in f.refs
  {
    RootSplit(NewHalf(nextRef, LeftID(key, h, ids), true, None, Leaf(h.left)),
              NewHalf(nextRef + 1, RightID(key, h, ids), true, None, Leaf(h.right)),
              h.splitKey, PageInfo(ids.parent, f.refs[ROOT].info.version + 1, false, Root, false), page)
  }

  /** The whole of `handleRootSplit`. */
  lemma RootLeafSplitPublished(f: Forest, sh: Shape, key: Key, value: Value, h: LeafHalves, page: NodePage,
                               nextRef: RefId, ids: LeafIds, a: Supply, b: Supply)
    requires Inv(f, sh, ROOT) && Counted(f, sh, nextRef, a) && Quiet(f, sh, {ROOT}) && LeafIdsOK(key, h, ids, a, b)
    requires sh[ROOT].level == 0 && NodeOK(f, sh, ROOT)
    requires SplitAndSet(f.pages[f.refs[ROOT].info.pageID].leaf, key, value) == Ok(h)
    requires InsertChild(EMPTY_NODE, 0, h.splitKey, LeftID(key, h, ids), RightID(key, h, ids)) == Ok(page)
    ensures var s := RootLeafSplitOf(f, key, h, page, nextRef, ids);
            RootPublished(f, sh, s, ApplyRoot(f, ROOT, s), nextRef + 2, b)
            && MapUpdated(f, 0, ApplyRoot(f, ROOT, s), 1, ROOT, key, value)
  {
    hide Less, LeafOK, InnerOK, InsertChild, CountLeq, LeafGet, Lookup, SplitAndSet, ApplyRoot, LeftID, RightID, RootTo,
      Quiet;
    var s := RootLeafSplitOf(f, key, h, page, nextRef, ids);
    RootReady(f, sh, nextRef, a, s, b);
    RootLeafSplitDone(f, sh, ROOT, key, value, ApplyRoot(f, ROOT, s), s, h);
  }

  function RootInnerSplitOf(f: Forest, h: NodeHalves, caches: CacheHalves, page: NodePage, nextRef: RefId,
                            ids: InnerIds): RootSplit
    requires ROOT in f.refs
  {
    RootSplit(NewHalf(nextRef, ids.left, false, caches.left, Node(h.left)),
              NewHalf(nextRef + 1, ids.right, false, caches.right, Node(h.right)),
              h.splitKey, PageInfo(ids.parent, f.refs[ROOT].info.version + 1, false, Root, false), page)
  }

  /** The whole of `handleRootInternalSplit`. */
  lemma RootInnerSplitPublished(f: Forest, sh: Shape, h: NodeHalves, left: Cache, right: Cache, page: NodePage,
                                nextRef: RefId, ids: InnerIds, a: Supply, b: Supply)
    requires Inv(f, sh, ROOT) && Counted(f, sh, nextRef, a) && Quiet(f, sh, {ROOT}) && InnerIdsOK(ids, a, b)
    requires sh[ROOT].level > 0 && NodeOK(f, sh, ROOT) && NodeSplitInto(f, ROOT, h, left, right)
    requires InsertChild(EMPTY_NODE, 0, h.splitKey, ids.left, ids.right) == Ok(page)
    ensures var s := RootInnerSplitOf(f, h, CacheHalves(Some(left), Some(right)), page, nextRef, ids);
            RootPublished(f, sh, s, ApplyRoot(f, ROOT, s), nextRef + 2, b)
            && MapSame(f, sh[ROOT].level, ApplyRoot(f, ROOT, s), sh[ROOT].level + 1, ROOT)
  {
    hide Less, LeafOK, InsertChild, CountLeq, Lookup, NodeSplit, Distribute, ApplyRoot, RootTo, Quiet, NodeKeys,
      NodeChildren, SeparatorsWithin;
    var s := RootInnerSplitOf(f, h, CacheHalves(Some(left), Some(right)), page, nextRef, ids);
    RootReady(f, sh, nextRef, a, s, b);
    RootInnerSplitDone(f, sh, ROOT, ApplyRoot(f, ROOT, s), s, h, left, right);
  }
}
