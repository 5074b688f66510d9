/**
 What a split handler of operations.go has prepared before it publishes, when it goes through, and the
 path it works along.
 */
module SplitPlans {
  import opened Bytes
  import opened Pages
  import opened ChildrenCache
  import opened Forest
  import opened ForestSplit
  import opened SplitTheorems
  import opened LeafRoom
  import opened RootSplit
  import opened Publish
  import opened PageSupply

  /** The internal part of a path: each page holds the next one among its children. */
  ghost predicate Spine(f: Forest, sh: Shape, path: seq<PathEntry>, level: nat) {
    && level < |path| && path[0].ref == ROOT && ROOT in sh && level < sh[ROOT].level
    && (forall j :: 0 <= j <= level ==> path[j].ref in sh && sh[path[j].ref].level == sh[ROOT].level - j)
    && (forall j :: 0 <= j < level ==> HasChild(f, path[j].ref, path[j + 1].ref))
  }

  ghost predicate HasChild(f: Forest, r: RefId, child: RefId) {
    r in f.refs && f.refs[r].children.Some? && child in f.refs[r].children.value.children
  }

  lemma PathIsSpine(f: Forest, sh: Shape, key: Key, path: seq<PathEntry>)
    requires Inv(f, sh, ROOT) && IsPath(f, sh, ROOT, key, path) && |path| >= 2
    ensures Spine(f, sh, path, |path| - 2)
  {
    hide Less, CountLeq, LeafOK, InnerOK, InRange;
    forall j | 0 <= j < |path| - 1
      ensures path[j].ref in sh && sh[path[j].ref].level == sh[ROOT].level - j
      ensures HasChild(f, path[j].ref, path[j + 1].ref)
    {
      assert OnPath(sh, key, path, j) && StepsTo(f, key, path[j], path[j + 1].ref);
    }
  }

  /** A split leaves the spine above the split page's parent as it was. */
  lemma SpineAfterSplit(f: Forest, sh: Shape, f': Forest, s: Split, path: seq<PathEntry>, level: nat)
    requires SplitOK(f, sh, ROOT, s) && SplitTo(f, f', s) && s.left.id !in sh && s.right.id !in sh
    requires Spine(f, sh, path, level) && s.parent == path[level].ref
    ensures Spine(f', ShapeAfterSplit(sh, s), path, level)
  {
    hide Less, LeafOK, InnerOK, InsertChild, Splice;
    var sh' := ShapeAfterSplit(sh, s);
    forall j | 0 <= j <= level
      ensures path[j].ref in sh' && sh'[path[j].ref].level == sh'[ROOT].level - j
      ensures j < level ==> HasChild(f', path[j].ref, path[j + 1].ref)
    {
      assert path[j].ref != s.child;
      if j < level {
        assert HasChild(f, path[j].ref, path[j + 1].ref) && path[j].ref != s.parent;
      }
    }
  }

  /** Changing the label of one reference is invisible. */
  lemma RelabelOne(f: Forest, sh: Shape, r: RefId, info: PageInfo)
    requires Inv(f, sh, ROOT) && r in sh && r in f.refs
    requires info.pageID == f.refs[r].info.pageID && info.isLeaf == f.refs[r].info.isLeaf && Usable(info)
    ensures var f' := Forest(f.refs[r := f.refs[r].(info := info)], f.pages);
            Inv(f', sh, ROOT) && MapSame(f, sh[ROOT].level, f', sh[ROOT].level, ROOT)
  {
    var f' := Forest(f.refs[r := f.refs[r].(info := info)], f.pages);
    forall x | x in sh ensures SameContent(f, f', x) && Labelled(f', x) {
      assert NodeOK(f, sh, x);
    }
    Relabel(f, sh, ROOT, f');
  }

  lemma SamePath(f: Forest, sh: Shape, key: Key, path: seq<PathEntry>, f': Forest)
    requires IsPath(f, sh, ROOT, key, path)
    requires forall x :: x in f.refs ==> x in f'.refs && f'.refs[x].children == f.refs[x].children
    ensures IsPath(f', sh, ROOT, key, path)
  {
    forall i | 0 <= i < |path| - 1 ensures StepsTo(f', key, path[i], path[i + 1].ref) {
      assert StepsTo(f, key, path[i], path[i + 1].ref);
    }
  }

  lemma QuietWeaken(f: Forest, sh: Shape, r: RefId)
    requires Quiet(f, sh, {})
    ensures Quiet(f, sh, {r})
  {
  }

  lemma SpineShorter(f: Forest, sh: Shape, path: seq<PathEntry>, level: nat)
    requires Spine(f, sh, path, level) && level > 0
    ensures Spine(f, sh, path, level - 1)
  {
  }

  /** The last two references of a path: a leaf and the internal page above it. */
  lemma LeafParent(f: Forest, sh: Shape, key: Key, path: seq<PathEntry>)
    requires Inv(f, sh, ROOT) && IsPath(f, sh, ROOT, key, path) && |path| >= 2
    ensures var leaf, parent := path[|path| - 1].ref, path[|path| - 2].ref;
            && leaf in sh && sh[leaf].level == 0 && NodeOK(f, sh, leaf)
            && parent in sh && sh[parent].level > 0 && NodeOK(f, sh, parent) && HasChild(f, parent, leaf)
            && Spine(f, sh, path, |path| - 2)
  {
    hide Less, CountLeq, LeafOK, InnerOK;
    PathIsSpine(f, sh, key, path);
    assert OnPath(sh, key, path, |path| - 1) && OnPath(sh, key, path, |path| - 2);
    assert NodeOK(f, sh, path[|path| - 1].ref) && NodeOK(f, sh, path[|path| - 2].ref);
    assert StepsTo(f, key, path[|path| - 2], path[|path| - 1].ref);
  }

  /** The position found by scanning the parent page is the one the descent took. */
  lemma SamePosition(f: Forest, sh: Shape, key: Key, path: seq<PathEntry>, i: int)
    requires Inv(f, sh, ROOT) && IsPath(f, sh, ROOT, key, path) && |path| >= 2
    requires path[|path| - 2].ref in sh && sh[path[|path| - 2].ref].level > 0 && NodeOK(f, sh, path[|path| - 2].ref)
    requires var c := f.refs[path[|path| - 2].ref].children.value;
             0 <= i < |c.children| && c.children[i] == path[|path| - 1].ref
    ensures path[|path| - 2].index == i <= |f.pages[f.refs[path[|path| - 2].ref].info.pageID].node.entries|
  {
    hide Less, CountLeq, LeafOK;
    ChildrenDistinct(f, sh, path[|path| - 2].ref);
    assert StepsTo(f, key, path[|path| - 2], path[|path| - 1].ref);
  }

  /** `path` leads from the root to `current`, whose range holds the key. */
  ghost predicate LeadsTo(f: Forest, sh: Shape, key: Key, path: seq<PathEntry>, current: RefId) {
    && ROOT in sh && current in sh && |path| + sh[current].level == sh[ROOT].level
    && InRange(key, sh[current].lo, sh[current].hi)
    && (if path == [] then current == ROOT
        else path[0].ref == ROOT && StepsTo(f, key, path[|path| - 1], current))
    && (forall i :: 0 <= i < |path| ==>
          && path[i].ref in sh && sh[path[i].ref].level == sh[ROOT].level - i
          && InRange(key, sh[path[i].ref].lo, sh[path[i].ref].hi))
    && (forall i :: 0 <= i < |path| - 1 ==> StepsTo(f, key, path[i], path[i + 1].ref))
  }

  lemma EmptyPath(f: Forest, sh: Shape, key: Key)
    requires Inv(f, sh, ROOT)
    ensures LeadsTo(f, sh, key, [], ROOT)
  {
  }

  lemma OneStepDown(f: Forest, sh: Shape, key: Key, path: seq<PathEntry>, current: RefId)
    requires Inv(f, sh, ROOT) && LeadsTo(f, sh, key, path, current) && sh[current].level > 0 && NodeOK(f, sh, current)
    ensures var c := f.refs[current].children.value;
            var i := CountLeq(c.separators, key);
            && i < |c.children| && c.children[i] in sh && sh[c.children[i]].level == sh[current].level - 1
            && NodeOK(f, sh, c.children[i])
            && LeadsTo(f, sh, key, path + [PathEntry(current, i)], c.children[i])
  {
    hide Less, CountLeq, LeafOK, NodeKeys, NodeChildren;
    var c := f.refs[current].children.value;
    ChildHoldsKey(sh[current], c, key);
    assert NodeOK(f, sh, c.children[CountLeq(c.separators, key)]);
  }

  lemma PathComplete(f: Forest, sh: Shape, key: Key, path: seq<PathEntry>, leaf: RefId)
    requires LeadsTo(f, sh, key, path, leaf) && sh[leaf].level == 0
    ensures IsPath(f, sh, ROOT, key, path + [PathEntry(leaf, -1)])
  {
    hide Less, CountLeq;
    var whole := path + [PathEntry(leaf, -1)];
    forall i | 0 <= i < |whole| ensures OnPath(sh, key, whole, i) {}
    forall i | 0 <= i < |whole| - 1 ensures StepsTo(f, key, whole[i], whole[i + 1].ref) {}
  }

  /** The split refers to references of the tree and adds two new ones. */
  ghost predicate Applicable(f: Forest, sh: Shape, s: Split) {
    && s.parent in f.refs && s.child in f.refs && f.refs[s.parent].children.Some?
    && (var c := f.refs[s.parent].children.value; s.index < |c.children| == |c.separators| + 1)
    && s.child in sh && s.left.id !in sh && s.right.id !in sh && s.left.id != s.right.id
  }

  /** Applying `s` leaves a sound tree whose spine up to `level` can still be split. */
  ghost predicate GoodPlan(f: Forest, sh: Shape, path: seq<PathEntry>, level: nat, s: Split, nextRef: RefId,
                           b: Supply) {
    && Applicable(f, sh, s)
    && var f' := ApplySplit(f, s);
    && var sh' := ShapeAfterSplit(sh, s);
    && SoundAt(f', sh', nextRef, b) && Quiet(f', sh', {}) && ROOT in sh && sh'[ROOT] == sh[ROOT]
    && Spine(f', sh', path, level)
  }

  ghost predicate LeafPlan(f: Forest, sh: Shape, path: seq<PathEntry>, key: Key, value: Value, s: Split,
                           nextRef: RefId, b: Supply) {
    && |path| >= 2 && GoodPlan(f, sh, path, |path| - 2, s, nextRef + 2, b)
    && MapUpdated(f, sh[ROOT].level, ApplySplit(f, s), sh[ROOT].level, ROOT, key, value)
  }

  ghost predicate InnerPlan(f: Forest, sh: Shape, path: seq<PathEntry>, level: nat, s: Split, nextRef: RefId,
                            b: Supply) {
    && GoodPlan(f, sh, path, level, s, nextRef + 2, b)
    && MapSame(f, sh[ROOT].level, ApplySplit(f, s), sh[ROOT].level, ROOT)
    && level < |path| && PageNow(ApplySplit(f, s), path[level].ref, s.parentPage)
  }

  /** `page` is the node page behind a reference. */
  ghost predicate PageNow(f: Forest, r: RefId, page: NodePage) {
    r in f.refs && f.refs[r].info.pageID in f.pages && f.pages[f.refs[r].info.pageID] == Node(page)
  }

  lemma PublishedIsGood(f: Forest, sh: Shape, path: seq<PathEntry>, level: nat, s: Split, nextRef: RefId, b: Supply)
    requires SplitOK(f, sh, ROOT, s) && s.child in f.refs && SplitTo(f, ApplySplit(f, s), s)
    requires Published(f, sh, s, ApplySplit(f, s), nextRef, b)
    requires Spine(f, sh, path, level) && s.parent == path[level].ref
    ensures GoodPlan(f, sh, path, level, s, nextRef, b) && PageNow(ApplySplit(f, s), s.parent, s.parentPage)
  {
    hide Less, LeafOK, InsertChild, Splice, ApplySplit, Quiet, Counted, Inv, SeparatorsWithin, NodeKeys, NodeChildren;
    SpineAfterSplit(f, sh, ApplySplit(f, s), s, path, level);
  }

  lemma LeafPlanned(f: Forest, sh: Shape, path: seq<PathEntry>, key: Key, value: Value, h: LeafHalves, page: NodePage,
                    nextRef: RefId, ids: LeafIds, a: Supply, b: Supply)
    requires |path| >= 2 && IsPath(f, sh, ROOT, key, path) && path[|path| - 2].index >= 0
             && LeafIdsOK(key, h, ids, a, b)
    requires Splittable(f, sh, path[|path| - 2].ref, path[|path| - 1].ref, path[|path| - 2].index, nextRef, a)
    requires sh[path[|path| - 1].ref].level == 0 && Spine(f, sh, path, |path| - 2)
    requires SplitAndSet(f.pages[f.refs[path[|path| - 1].ref].info.pageID].leaf, key, value) == Ok(h)
    requires InsertChild(f.pages[f.refs[path[|path| - 2].ref].info.pageID].node, path[|path| - 2].index, h.splitKey,
                         LeftID(key, h, ids), RightID(key, h, ids)) == Ok(page)
    ensures LeafPlan(f, sh, path, key, value,
                     LeafSplitOf(f, path[|path| - 2].ref, path[|path| - 1].ref, path[|path| - 2].index, key, h, page,
                                 nextRef, ids),
                     nextRef, b)
  {
    hide Less, LeafOK, InnerOK, InsertChild, SplitAndSet, IsPath, SplitTo, SplitOK, Published, Spine, GoodPlan,
      MapUpdated, LeftID, RightID, ApplySplit, LeafIdsOK;
    LeafSplitPublished(f, sh, path, key, value, h, page, nextRef, ids, a, b);
    var s := LeafSplitOf(f, path[|path| - 2].ref, path[|path| - 1].ref, path[|path| - 2].index, key, h, page, nextRef,
                         ids);
    PublishedIsGood(f, sh, path, |path| - 2, s, nextRef + 2, b);
  }

  lemma InnerPlanned(f: Forest, sh: Shape, path: seq<PathEntry>, level: nat, i: nat, h: NodeHalves, left: Cache,
                     right: Cache, page: NodePage, nextRef: RefId, ids: InnerIds, a: Supply, b: Supply)
    requires Spine(f, sh, path, level) && level > 0 && InnerIdsOK(ids, a, b)
    requires Splittable(f, sh, path[level - 1].ref, path[level].ref, i, nextRef, a) && sh[path[level].ref].level > 0
    requires NodeSplitInto(f, path[level].ref, h, left, right)
    requires InsertChild(f.pages[f.refs[path[level - 1].ref].info.pageID].node, i, h.splitKey, ids.left, ids.right)
             == Ok(page)
    ensures InnerPlan(f, sh, path, level - 1,
                      InnerSplitOf(f, path[level - 1].ref, path[level].ref, i, h, CacheHalves(Some(left), Some(right)),
                                   page, nextRef, ids),
                      nextRef, b)
  {
    hide Less, LeafOK, InnerOK, InsertChild, NodeSplitInto, SplitTo, SplitOK, Published, GoodPlan, MapSame, ApplySplit,
      InnerIdsOK, PageNow;
    InnerSplitPublished(f, sh, path[level - 1].ref, path[level].ref, i, h, left, right, page, nextRef, ids, a, b);
    SpineShorter(f, sh, path, level);
    var s := InnerSplitOf(f, path[level - 1].ref, path[level].ref, i, h, CacheHalves(Some(left), Some(right)), page,
                          nextRef, ids);
    PublishedIsGood(f, sh, path, level - 1, s, nextRef + 2, b);
  }

  /** Two neighbours on the spine: an internal page and the internal page above it. */
  lemma SpineNodes(f: Forest, sh: Shape, path: seq<PathEntry>, level: nat)
    requires Inv(f, sh, ROOT) && Spine(f, sh, path, level) && level > 0
    ensures level < |path|
    ensures var current, parent := path[level].ref, path[level - 1].ref;
            && current in sh && sh[current].level > 0 && NodeOK(f, sh, current)
            && parent in sh && sh[parent].level > 0 && NodeOK(f, sh, parent) && HasChild(f, parent, current)
  {
    hide LeafOK, InnerOK;
    assert NodeOK(f, sh, path[level].ref) && NodeOK(f, sh, path[level - 1].ref);
    assert HasChild(f, path[level - 1].ref, path[level].ref);
  }

  ghost predicate SoundAt(f: Forest, sh: Shape, nextRef: RefId, a: Supply) {
    Inv(f, sh, ROOT) && Counted(f, sh, nextRef, a)
  }

  /** Whether the page that splits off has room in the parent page of a path. */
  ghost predicate ParentHasRoom(f: Forest, path: seq<PathEntry>, splitKey: Key) {
    && |path| >= 2 && path[|path| - 2].ref in f.refs
    && var id := f.refs[path[|path| - 2].ref].info.pageID;
    && id in f.pages && f.pages[id].Node? && NodeUsed(f.pages[id].node) + ENTRY_SIZE + |splitKey| <= PAGE_SIZE
  }

  /** The leaf page at the end of a path. */
  ghost function PathLeaf(f: Forest, path: seq<PathEntry>): Option<LeafPage> {
    if path != [] && path[|path| - 1].ref in f.refs then
      var id := f.refs[path[|path| - 1].ref].info.pageID;
      if id in f.pages && f.pages[id].Leaf? then Some(f.pages[id].leaf) else None
    else None
  }

  /** Whether a split of the path's leaf goes through: both halves fit, pages are left, the parent has room. */
  ghost predicate SplitAccepts(f: Forest, path: seq<PathEntry>, key: Key, value: Value, pagesLeft: nat) {
    && PathLeaf(f, path).Some?
    && var h := SplitAndSet(PathLeaf(f, path).value, key, value);
    && h.Ok? && if |path| < 2 then pagesLeft >= 5 else pagesLeft >= 3 && ParentHasRoom(f, path, h.value.splitKey)
  }

  /** When a `Set` succeeds, as a caller could see it from the leaf, its parent and the pages left. */
  ghost predicate Accepts(f: Forest, path: seq<PathEntry>, key: Key, value: Value, pagesLeft: nat) {
    && PathLeaf(f, path).Some?
    && if LeafIsFull(PathLeaf(f, path).value, |key|, 0) then SplitAccepts(f, path, key, value, pagesLeft)
       else pagesLeft >= 1 && LeafSet(PathLeaf(f, path).value, key, value).Ok?
  }

  /** The leaf of a path and the entry to write are small. */
  ghost predicate SmallWrite(f: Forest, path: seq<PathEntry>, key: Key, value: Value) {
    && PathLeaf(f, path).Some? && AllSmall(PathLeaf(f, path).value.entries)
    && Small(Entry(key, value)) && |value| <= SURE_VALUE
  }

  /**
   When a `Set` among small entries succeeds: one page is left and the leaf has room for another key with a
   value of 205 bytes, or it has two entries, the pages of a split are left and the parent takes the middle key.
   */
  ghost predicate SmallAccepts(f: Forest, path: seq<PathEntry>, key: Key, pagesLeft: nat) {
    && PathLeaf(f, path).Some?
    && var leaf := PathLeaf(f, path).value;
    if LeafUsed(leaf) + ENTRY_SIZE + |key| + SURE_VALUE <= PAGE_SIZE then pagesLeft >= 1
    else
      && |leaf.entries| >= 2
      && if |path| < 2 then pagesLeft >= 5
         else pagesLeft >= 3 && ParentHasRoom(f, path, leaf.entries[|leaf.entries| / 2].key)
  }

  /** Among small entries no write is refused for lack of room in a leaf that has two entries. */
  lemma SmallExact(f: Forest, sh: Shape, path: seq<PathEntry>, key: Key, value: Value, pagesLeft: nat)
    requires Inv(f, sh, ROOT) && IsPath(f, sh, ROOT, key, path) && SmallWrite(f, path, key, value)
    ensures Accepts(f, path, key, value, pagesLeft) <==> SmallAccepts(f, path, key, pagesLeft)
  {
    hide Less, SplitAndSet, LeafSet, AllSmall, EntryBytes, SortedEntries, EntriesWithin, InnerOK, IsPath;
    var leaf := PathLeaf(f, path).value;
    PathLeafFits(f, sh, key, path);
    SmallSplits(leaf, key, value);
    LeafFullExact(leaf, 0, key, seq(SURE_VALUE, _ => 0));
    if !LeafIsFull(leaf, |key|, 0) {
      NotFullTakes(leaf, key, value);
    }
  }

  lemma PathLeafFits(f: Forest, sh: Shape, key: Key, path: seq<PathEntry>)
    requires Inv(f, sh, ROOT) && IsPath(f, sh, ROOT, key, path)
    ensures PathLeaf(f, path).Some? && LeafFits(PathLeaf(f, path).value)
  {
    hide Less, SortedEntries, EntriesWithin, InnerOK;
    assert OnPath(sh, key, path, |path| - 1);
    assert NodeOK(f, sh, path[|path| - 1].ref);
  }

  /**
   Whether one round of the cascade goes through at `level`: the page splits, pages are left, the
   page above has room.
   */
  ghost predicate InnerAccepts(f: Forest, path: seq<PathEntry>, level: nat, pagesLeft: nat) {
    && 0 < level < |path| && path[level].ref in f.refs && path[level - 1].ref in f.refs
    && var id, above := f.refs[path[level].ref].info.pageID, f.refs[path[level - 1].ref].info.pageID;
    && id in f.pages && f.pages[id].Node? && above in f.pages && f.pages[above].Node?
    && var node := f.pages[id].node;
    && SplitsNode(id, node) && pagesLeft >= 3
    && NodeUsed(f.pages[above].node) + ENTRY_SIZE + |node.entries[|node.entries| / 2].key| <= PAGE_SIZE
  }

  /** Whether the root can be split: the page splits and pages are left. */
  ghost predicate RootAccepts(f: Forest, pagesLeft: nat) {
    && ROOT in f.refs && f.refs[ROOT].info.pageID in f.pages && f.pages[f.refs[ROOT].info.pageID].Node?
    && SplitsNode(f.refs[ROOT].info.pageID, f.pages[f.refs[ROOT].info.pageID].node) && pagesLeft >= 4
  }

  /** Marking the leaf as splitting changes nothing about that. */
  lemma SplitAcceptsSame(f: Forest, sh: Shape, path: seq<PathEntry>, key: Key, value: Value, pagesLeft: nat,
                         info: PageInfo)
    requires IsPath(f, sh, ROOT, key, path) && path[|path| - 1].ref in f.refs
             && info.pageID == f.refs[path[|path| - 1].ref].info.pageID
    ensures var leaf := path[|path| - 1].ref;
            SplitAccepts(Forest(f.refs[leaf := f.refs[leaf].(info := info)], f.pages), path, key, value, pagesLeft)
            <==> SplitAccepts(f, path, key, value, pagesLeft)
  {
    hide SplitAndSet;
    assert OnPath(sh, key, path, |path| - 1);
    if |path| >= 2 {
      assert OnPath(sh, key, path, |path| - 2);
    }
  }

  /** There is only one path for a key. */
  lemma {:induction false} PathUnique(f: Forest, sh: Shape, key: Key, p: seq<PathEntry>, q: seq<PathEntry>, i: nat)
    requires IsPath(f, sh, ROOT, key, p) && IsPath(f, sh, ROOT, key, q) && i < |p|
    ensures |p| == |q| && p[i].ref == q[i].ref
  {
    if i > 0 {
      PathUnique(f, sh, key, p, q, i - 1);
      assert StepsTo(f, key, p[i - 1], p[i].ref) && StepsTo(f, key, q[i - 1], q[i].ref);
    }
  }

  lemma AcceptsUnique(f: Forest, sh: Shape, key: Key, value: Value, p: seq<PathEntry>, q: seq<PathEntry>,
                      pagesLeft: nat)
    requires IsPath(f, sh, ROOT, key, p) && IsPath(f, sh, ROOT, key, q)
    ensures Accepts(f, p, key, value, pagesLeft) <==> Accepts(f, q, key, value, pagesLeft)
  {
    hide SplitAndSet, LeafSet;
    PathUnique(f, sh, key, p, q, |p| - 1);
    if |p| >= 2 {
      PathUnique(f, sh, key, p, q, |p| - 2);
    }
  }

  /** The root page over two halves always has room for its one separator. */
  lemma RootHasRoom(leaf: LeafPage, key: Key, value: Value)
    requires LeafFits(leaf) && SplitAndSet(leaf, key, value).Ok?
    ensures NodeUsed(EMPTY_NODE) + ENTRY_SIZE + |SplitAndSet(leaf, key, value).value.splitKey| <= PAGE_SIZE
  {
    hide LeafBuild, LeafSet, Less, EntryBytes;
    EntryWithin(leaf.entries, |leaf.entries| / 2);
  }

  /** One entry takes no more than all of them. */
  lemma EntryWithin(es: seq<Entry>, i: nat)
    requires i < |es|
    ensures |es[i].key| <= EntryBytes(es)
  {
    hide EntryBytes;
    assert es == es[..i] + ([es[i]] + es[i + 1..]);
    EntryBytesSplit(es[..i], [es[i]] + es[i + 1..]);
    EntryBytesSplit([es[i]], es[i + 1..]);
    EntryBytesOne(es[i]);
  }

  /** Building the new root page never fails. */
  lemma RootPageBuilt(leaf: LeafPage, key: Key, value: Value, ids: LeafIds, a: Supply, b: Supply)
    requires LeafFits(leaf) && SplitAndSet(leaf, key, value).Ok? && SupplyOK(a)
    requires LeafIdsOK(key, SplitAndSet(leaf, key, value).value, ids, a, b)
    ensures var h := SplitAndSet(leaf, key, value).value;
            InsertChild(EMPTY_NODE, 0, h.splitKey, LeftID(key, h, ids), RightID(key, h, ids)).Ok?
  {
    hide SplitAndSet, LeftID, RightID, LeafFits;
    var h := SplitAndSet(leaf, key, value).value;
    RootHasRoom(leaf, key, value);
    InsertChildSplices(EMPTY_NODE, 0, h.splitKey, LeftID(key, h, ids), RightID(key, h, ids));
  }

  lemma RootNodeBuilt(id: PageID, p: NodePage, ids: InnerIds, a: Supply, b: Supply)
    requires NodeFits(p) && NodeSplit(id, p).Ok? && SupplyOK(a) && InnerIdsOK(ids, a, b)
    ensures InsertChild(EMPTY_NODE, 0, NodeSplit(id, p).value.splitKey, ids.left, ids.right).Ok?
  {
    hide NodeSplit, KeyBytes;
    NodeSplitCuts(id, p);
    KeyWithin(p.entries, |p.entries| / 2);
    InsertChildSplices(EMPTY_NODE, 0, NodeSplit(id, p).value.splitKey, ids.left, ids.right);
  }

  lemma KeyWithin(es: seq<IndexEntry>, i: nat)
    requires i < |es|
    ensures |es[i].key| <= KeyBytes(es)
  {
    hide KeyBytes;
    assert es == es[..i] + ([es[i]] + es[i + 1..]);
    KeyBytesSplit(es[..i], [es[i]] + es[i + 1..]);
    KeyBytesSplit([es[i]], es[i + 1..]);
    KeyBytesOne(es[i]);
  }

  /** Applying the root split `s` leaves a sound tree, one level taller, with the same map. */
  ghost predicate RootInnerPlan(f: Forest, sh: Shape, s: RootSplit, nextRef: RefId, b: Supply) {
    && ROOT in f.refs && ROOT in sh && s.left.id == nextRef && s.right.id == nextRef + 1 && s.left.id !in sh
       && s.right.id !in sh
    && var f' := ApplyRoot(f, ROOT, s);
    && var sh' := ShapeAfterRoot(sh, ROOT, s);
    && SoundAt(f', sh', nextRef + 2, b) && Quiet(f', sh', {})
    && MapSame(f, sh[ROOT].level, f', sh'[ROOT].level, ROOT)
  }

  ghost predicate RootLeafPlan(f: Forest, sh: Shape, key: Key, value: Value, s: RootSplit, nextRef: RefId, b: Supply) {
    && ROOT in f.refs && ROOT in sh && s.left.id == nextRef && s.right.id == nextRef + 1 && s.left.id !in sh
       && s.right.id !in sh
    && var f' := ApplyRoot(f, ROOT, s);
    && var sh' := ShapeAfterRoot(sh, ROOT, s);
    && SoundAt(f', sh', nextRef + 2, b) && Quiet(f', sh', {})
    && MapUpdated(f, sh[ROOT].level, f', sh'[ROOT].level, ROOT, key, value)
  }

  /** `child` has left the tree and two new references, numbered from `n`, have come in. */
  ghost predicate Replaced(sh: Shape, sh': Shape, child: RefId, n: RefId) {
    sh'.Keys == sh.Keys - {child} + {n, n + 1}
  }

  /** References numbered below `n` are only ever taken out of the tree. */
  ghost predicate NoneRevived(sh: Shape, sh': Shape, n: RefId) {
    forall x :: x in sh' && x < n ==> x in sh
  }

  lemma SpineCounted(f: Forest, sh: Shape, path: seq<PathEntry>, level: nat, nextRef: RefId, a: Supply)
    requires Spine(f, sh, path, level) && Counted(f, sh, nextRef, a)
    ensures level < |path| && path[level].ref in sh && path[level].ref < nextRef
  {
  }

  lemma LeafCounted(f: Forest, sh: Shape, key: Key, path: seq<PathEntry>, nextRef: RefId, a: Supply)
    requires IsPath(f, sh, ROOT, key, path) && Counted(f, sh, nextRef, a)
    ensures path != [] && path[|path| - 1].ref in sh && path[|path| - 1].ref < nextRef
  {
    assert OnPath(sh, key, path, |path| - 1);
  }

  // ---------------------------------------------------------------- pages drawn for a split

  lemma CountedSupply(f: Forest, sh: Shape, nextRef: RefId, a: Supply)
    requires Counted(f, sh, nextRef, a)
    ensures SupplyOK(a)
  {
  }

  /** Drawing pages leaves a sound tree sound. */
  lemma DrewSound(f: Forest, sh: Shape, nextRef: RefId, a: Supply, b: Supply, ids: set<PageID>)
    requires SoundAt(f, sh, nextRef, a) && Drew(a, b, ids)
    ensures SoundAt(f, sh, nextRef, b) && Left(b) == Left(a) - |ids|
  {
    hide Inv;
    DrewIsDrawn(a, b, ids);
    CountedWithin(f, sh, nextRef, a, b);
  }

  lemma LeafIdsNonZero(key: Key, h: LeafHalves, ids: LeafIds, a: Supply, b: Supply)
    requires SupplyOK(a) && LeafIdsOK(key, h, ids, a, b)
    ensures LeftID(key, h, ids) != 0 && RightID(key, h, ids) != 0
  {
    hide LeftID, RightID;
  }

  lemma InnerDrawn(ids: InnerIds, a: Supply, b: Supply)
    requires ids.left != ids.right && ids.parent != ids.left && ids.parent != ids.right
    requires SupplyOK(a) && Drew(a, b, {ids.left, ids.right, ids.parent})
    ensures InnerIdsOK(ids, a, b) && ids.left != 0 && ids.right != 0
  {
    DrewIsDrawn(a, b, {ids.left, ids.right, ids.parent});
  }

  /** The key that moves up is the middle one. */
  lemma MiddleKey(id: PageID, p: NodePage, h: NodeHalves)
    requires NodeSplit(id, p) == Ok(h)
    ensures |p.entries| >= 3 && h.splitKey == p.entries[|p.entries| / 2].key
  {
    hide NodeSplit;
    NodeSplitCuts(id, p);
  }

  lemma PageIsNew(f: Forest, sh: Shape, nextRef: RefId, a: Supply, b: Supply, id: PageID)
    requires Counted(f, sh, nextRef, a) && Drew(a, b, {} + {id})
    ensures id !in f.pages && Counted(f, sh, nextRef, b) && !InSupply(b, id)
  {
    assert {} + {id} == {id};
    DrewIsDrawn(a, b, {id});
    CountedWithin(f, sh, nextRef, a, b);
  }

  lemma CountedWrite(f: Forest, sh: Shape, nextRef: RefId, b: Supply, r: RefId, info: PageInfo, page: Page)
    requires Counted(f, sh, nextRef, b) && r in f.refs && !InSupply(b, info.pageID)
    ensures Counted(Forest(f.refs[r := f.refs[r].(info := info)], f.pages[info.pageID := page]), sh, nextRef, b)
  {
  }

  /** The page above the level where a cascade stopped has room again. */
  ghost predicate NotFull(f: Forest, path: seq<PathEntry>, level: nat) {
    && 0 < level <= |path| && path[level - 1].ref in f.refs
    && var id := f.refs[path[level - 1].ref].info.pageID;
    && id in f.pages && f.pages[id].Node? && !NodeIsFull(f.pages[id].node, 0)
  }

  /** Giving back a page that no live reference holds changes neither the tree nor the map. */
  lemma ReclaimSound(f: Forest, sh: Shape, f': Forest, id: PageID)
    requires Inv(f, sh, ROOT)
    requires forall r :: r in sh && r in f.refs ==> f.refs[r].pageID != id && f.refs[r].info.pageID != id
    requires f'.pages == f.pages - {id} && f'.refs == map r | r in f.refs && f.refs[r].pageID != id :: f.refs[r]
    ensures Inv(f', sh, ROOT) && MapSame(f, sh[ROOT].level, f', sh[ROOT].level, ROOT)
    ensures forall r :: r in sh ==> r in f'.refs && f'.refs[r] == f.refs[r]
  {
    hide Lookup, LeafOK, InnerOK;
    forall x | x in sh ensures SameContent(f, f', x) && Labelled(f', x) && x in f'.refs && f'.refs[x] == f.refs[x] {
      assert NodeOK(f, sh, x);
      NodePagePresent(f, sh, x);
    }
    Relabel(f, sh, ROOT, f');
  }

  lemma NodePagePresent(f: Forest, sh: Shape, x: RefId)
    requires x in sh && NodeOK(f, sh, x)
    ensures f.refs[x].info.pageID in f.pages
  {
  }
}
