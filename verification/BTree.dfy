/**
 The sequential copy-on-write B+tree: `searchPath`, the write path of `btreeStorageAdapter.Set`, and
 leaf, root and cascading internal splits. One attempt of the retry loop of `writeOperation` is
 enough here, because without concurrency every compare-and-swap succeeds.
 */
module BTree {
  import opened Bytes
  import opened Pages
  import opened ChildrenCache
  import opened Forest
  import opened ForestSplit
  import opened SplitTheorems
  import opened RootSplit
  import opened Publish
  import opened PageSupply
  import opened SplitPlans
  import Search

  class BTree {
    var refs: map<RefId, PageRef>
    var pages: map<PageID, Page>
    var nextRef: RefId
    var supply: Supply

    ghost var shape: Shape
    ghost var contents: map<Key, Value>

    ghost function View(): Forest
      reads this`refs, this`pages
    {
      Forest(refs, pages)
    }

    /** The tree invariant; no page in use or held by a reference can be handed out again. */
    ghost predicate Sound()
      reads this`refs, this`pages, this`nextRef, this`supply, this`shape
    {
      SoundAt(View(), shape, nextRef, supply)
    }

    ghost predicate Represents(m: map<Key, Value>)
      requires ROOT in shape
      reads this`refs, this`pages, this`shape
    {
      forall k :: Lookup(View(), ROOT, k, shape[ROOT].level) == if k in m then Some(m[k]) else None
    }

    ghost predicate Valid()
      reads this
    {
      Sound() && Quiet(View(), shape, {}) && Represents(contents)
    }

    constructor (total: nat)
      ensures Valid() && contents == map[]
    {
      var info := PageInfo(0, 1, true, Root, false);
      refs := map[ROOT := PageRef(0, info, None)];
      pages := map[0 := Leaf(EMPTY_LEAF)];
      nextRef, supply := 1, Supply([], 1, total);
      shape := map[ROOT := Place(None, None, 0, None)];
      contents := map[];
    }

    // ---------------------------------------------------------------- pages

    /** `Alloc`, where `ids` have been drawn from `a` so far. */
    method Alloc(ghost a: Supply, ghost ids: set<PageID>) returns (id: Option<PageID>)
      requires Drew(a, supply, ids)
      modifies this`supply
      ensures id.Some? <==> Left(a) > |ids|
      ensures id.Some? ==> id.value !in ids && Drew(a, supply, ids + {id.value})
      ensures id.None? ==> supply == old(supply)
    {
      hide SupplyOK, InSupply;
      TakeDraws(supply);
      var draw := Take(supply);
      if draw.None? {
        return None;
      }
      DrewMore(a, supply, draw.value.rest, ids, draw.value.id);
      supply := draw.value.rest;
      return Some(draw.value.id);
    }

    /** `FreePage` for a page that was drawn. */
    method FreePage(id: PageID, ghost a: Supply, ghost ids: set<PageID>)
      requires Drew(a, supply, ids) && id in ids
      modifies this`supply
      ensures Drew(a, supply, ids - {id})
    {
      GiveReturns(supply, id);
      DrewLess(a, supply, Give(supply, id), ids, id);
      supply := Give(supply, id);
    }

    /** The two pages of a `Split`, both or none. */
    method DrawHalves(ghost a: Supply) returns (r: Option<(PageID, PageID)>)
      requires Drew(a, supply, {})
      modifies this`supply
      ensures r.Some? <==> Left(a) >= 2
      ensures r.Some? ==> r.value.0 != r.value.1 && Drew(a, supply, {r.value.0, r.value.1})
      ensures r.None? ==> Drew(a, supply, {})
    {
      hide Drew;
      var left := Alloc(a, {});
      if left.None? {
        return None;
      }
      assert {} + {left.value} == {left.value};
      var right := Alloc(a, {left.value});
      if right.None? {
        FreePage(left.value, a, {left.value});
        assert {left.value} - {left.value} == {};
        return None;
      }
      assert {left.value} + {right.value} == {left.value, right.value};
      return Some((left.value, right.value));
    }

    /** Free both halves of a split that failed. */
    method FreeHalves(left: PageID, right: PageID, ghost a: Supply)
      requires left != right && Drew(a, supply, {left, right})
      modifies this`supply
      ensures Drew(a, supply, {})
    {
      hide Drew;
      FreePage(left, a, {left, right});
      assert {left, right} - {left} == {right};
      FreePage(right, a, {right});
      assert {right} - {right} == {};
    }

    /**
     Split a leaf and write into one half, on private pages. Three pages are needed; the half that the
     write replaces is freed.
     */
    method SplitLeafPages(leaf: LeafPage, key: Key, value: Value, ghost a: Supply)
      returns (r: Result<(LeafHalves, LeafIds)>)
      requires Drew(a, supply, {})
      modifies this`supply
      ensures r.Ok? <==> Left(a) >= 3 && SplitAndSet(leaf, key, value).Ok?
      ensures r.Ok? ==> SplitAndSet(leaf, key, value) == Ok(r.value.0)
      ensures r.Ok? ==> var h, ids := r.value.0, r.value.1;
                        && ids.left != ids.right && ids.left != ids.copy && ids.right != ids.copy
                        && Drew(a, supply, {ids.left, ids.right, ids.copy})
      ensures r.Err? ==> Drew(a, supply, {})
    {
      hide Drew, LeafSet, LeafBuild, Less;
      if |leaf.entries| < 2 {
        return Err(TooFewKeys);
      }
      var halves := DrawHalves(a);
      if halves.None? {
        return Err(OutOfMemory);
      }
      var left, right := halves.value.0, halves.value.1;
      if LeafSplit(leaf).Err? {
        FreeHalves(left, right, a);
        return Err(LeafSplit(leaf).error);
      }
      var copy := Alloc(a, {left, right});
      if copy.None? {
        FreeHalves(left, right, a);
        return Err(OutOfMemory);
      }
      assert {left, right} + {copy.value} == {left, right, copy.value};
      var split := SplitAndSet(leaf, key, value);
      if split.Err? {
        FreePage(copy.value, a, {left, right, copy.value});
        assert {left, right, copy.value} - {copy.value} == {left, right};
        FreeHalves(left, right, a);
        return Err(split.error);
      }
      return Ok((split.value, LeafIds(left, right, copy.value, 0)));
    }

    /** Split a node onto private pages, and draw one page more for the page above it. */
    method SplitNodePages(id: PageID, node: NodePage, ghost a: Supply) returns (r: Result<(NodeHalves, InnerIds)>)
      requires Drew(a, supply, {})
      modifies this`supply
      ensures r.Ok? <==> Left(a) >= 3 && NodeSplit(id, node).Ok?
      ensures r.Ok? ==> NodeSplit(id, node) == Ok(r.value.0)
      ensures r.Ok? ==> var ids := r.value.1;
                        && ids.left != ids.right && ids.parent != ids.left && ids.parent != ids.right
                        && Drew(a, supply, {ids.left, ids.right, ids.parent})
      ensures r.Err? ==> Drew(a, supply, {})
    {
      hide Drew, BulkIndex;
      if |node.entries| < 2 {
        return Err(TooFewKeys);
      }
      var halves := DrawHalves(a);
      if halves.None? {
        return Err(OutOfMemory);
      }
      var left, right := halves.value.0, halves.value.1;
      var split := NodeSplit(id, node);
      if split.Err? {
        FreeHalves(left, right, a);
        return Err(split.error);
      }
      var parent := Alloc(a, {left, right});
      if parent.None? {
        FreeHalves(left, right, a);
        return Err(OutOfMemory);
      }
      assert {left, right} + {parent.value} == {left, right, parent.value};
      return Ok((split.value, InnerIds(left, right, parent.value)));
    }

    /** The deferred cleanup of an internal split. */
    method FreeThree(ids: InnerIds, ghost a: Supply)
      requires ids.left != ids.right && ids.parent != ids.left && ids.parent != ids.right
      requires Drew(a, supply, {ids.left, ids.right, ids.parent})
      modifies this`supply
      ensures Drew(a, supply, {})
    {
      hide Drew;
      FreePage(ids.parent, a, {ids.left, ids.right, ids.parent});
      assert {ids.left, ids.right, ids.parent} - {ids.parent} == {ids.left, ids.right};
      FreeHalves(ids.left, ids.right, a);
    }

    // ---------------------------------------------------------------- reading

    /** `searchPath`: from the root to the leaf whose range holds the key. It always succeeds on a sound tree. */
    method SearchPath(key: Key) returns (path: seq<PathEntry>)
      requires Sound()
      ensures IsPath(View(), shape, ROOT, key, path)
    {
      hide Less, CountLeq, LeadsTo, IsPath, SortedEntries, EntriesWithin, LeafFits, NodeKeys, NodeChildren;
      var current := ROOT;
      path := [];
      assert NodeOK(View(), shape, ROOT);
      EmptyPath(View(), shape, key);
      while !refs[current].info.isLeaf
        invariant current in shape && NodeOK(View(), shape, current) && LeadsTo(View(), shape, key, path, current)
        decreases shape[current].level
      {
        var cache := refs[current].children.value;
        var i := Search.CacheSearch(|cache.children|, cache.separators, key);
        OneStepDown(View(), shape, key, path, current);
        path := path + [PathEntry(current, i)];
        current := cache.children[i];
      }
      PathComplete(View(), shape, key, path, current);
      path := path + [PathEntry(current, -1)];
    }

    /** `GetRaw`: the descent and the leaf search find exactly what the map holds. */
    method GetRaw(key: Key) returns (value: Option<Value>)
      requires Valid()
      ensures value == if key in contents then Some(contents[key]) else None
    {
      var path := SearchPath(key);
      var leaf := path[|path| - 1].ref;
      assert OnPath(shape, key, path, |path| - 1);
      assert NodeOK(View(), shape, leaf);
      OKIsLinked(View(), shape);
      forall m | 0 <= m < |path| ensures SameContent(View(), View(), path[m].ref) {
        assert OnPath(shape, key, path, m) && NodeOK(View(), shape, path[m].ref);
      }
      PathLookup(View(), shape, View(), ROOT, key, path, 0, |path| - 1);
      var entries := pages[refs[leaf].info.pageID].leaf.entries;
      var i, found := Search.SearchKey(Keys(entries), key);
      if found {
        LeafGetAt(entries, i);
        return Some(entries[i].value);
      }
      forall j | 0 <= j < |entries| ensures entries[j].key != key {
        assert Keys(entries)[j] in Keys(entries);
      }
      return None;
    }

    // ---------------------------------------------------------------- leaf splits

    /** `handleParentCASWithSpin`'s scan: the child's position in the physical parent page. */
    method ChildPosition(parent: RefId, child: RefId, hint: int) returns (i: int)
      requires Sound() && parent in shape && shape[parent].level > 0 && HasChild(View(), parent, child) && child in refs
      ensures NodeOK(View(), shape, parent)
      ensures 0 <= i < |refs[parent].children.value.children| && refs[parent].children.value.children[i] == child
    {
      hide Less, LeafOK, CountLeq;
      assert NodeOK(View(), shape, parent);
      var node := pages[refs[parent].info.pageID].node;
      var found := Search.FindPage(NodeChildren(node), refs[child].pageID);
      ghost var c := refs[parent].children.value;
      ghost var at: nat :| at < |c.children| && c.children[at] == child;
      assert NodeChildren(node)[at] == refs[child].pageID;
      i := if found.Some? then found.value else hint;
      FindsChild(View(), shape, ROOT, parent, at, i);
    }

    /** The first half of `handleLeafSplit`: everything up to the parent update, on private pages. */
    method PlanLeafSplit(path: seq<PathEntry>, key: Key, value: Value) returns (plan: Result<Split>)
      requires Sound() && |path| >= 2 && IsPath(View(), shape, ROOT, key, path)
               && Quiet(View(), shape, {path[|path| - 1].ref})
      modifies this`supply
      ensures Sound()
      ensures plan.Ok? ==> LeafPlan(View(), shape, path, key, value, plan.value, nextRef, supply)
      ensures plan.Ok? ==> plan.value.child == path[|path| - 1].ref && plan.value.left.id == nextRef
                           && plan.value.right.id == nextRef + 1
      ensures plan.Ok? <==> SplitAccepts(View(), path, key, value, Left(old(supply)))
    {
      hide Less, CountLeq, LeafGet, LeafFits, SortedEntries, EntriesWithin, InsertChild, SplitAndSet, Splice, Lookup,
        ApplySplit, NodeKeys, NodeChildren, SeparatorsWithin, LeftID, RightID, LeafPlan, Quiet, Spine, IsPath, NodeFits,
        Drew, InSupply, SupplyOK, AllOK, DistinctIds, Mirrored;
      var leafRef, parentRef := path[|path| - 1].ref, path[|path| - 2].ref;
      LeafParent(View(), shape, key, path);
      var i := ChildPosition(parentRef, leafRef, path[|path| - 2].index);
      SamePosition(View(), shape, key, path, i);
      ghost var a := supply;
      assert SupplyOK(a) by { CountedSupply(View(), shape, nextRef, a); }
      DrewNone(a);
      var split := SplitLeafPages(pages[refs[leafRef].info.pageID].leaf, key, value, a);
      if split.Err? {
        DrewSound(View(), shape, nextRef, a, supply, {});
        return Err(split.error);
      }
      var h, halves := split.value.0, split.value.1;
      var ids := ParentPage(key, h, halves, a);
      var inserted := InsertChild(pages[refs[parentRef].info.pageID].node, i, h.splitKey, LeftID(key, h, ids),
                                  RightID(key, h, ids));
      LeafIdsNonZero(key, h, ids, a, supply);
      InsertChildSplices(pages[refs[parentRef].info.pageID].node, i, h.splitKey, LeftID(key, h, ids),
                         RightID(key, h, ids));
      if inserted.Err? {
        ghost var drawn := {LeftID(key, h, ids), RightID(key, h, ids), ids.parent};
        FreePage(ids.parent, a, drawn);
        DrewSound(View(), shape, nextRef, a, supply, drawn - {ids.parent});
        return Err(inserted.error);
      }
      LeafPlanned(View(), shape, path, key, value, h, inserted.value, nextRef, ids, a, supply);
      CountedWithin(View(), shape, nextRef, a, supply);
      return Ok(LeafSplitOf(Forest(refs, pages), parentRef, leafRef, i, key, h, inserted.value, nextRef, ids));
    }

    /** Free the replaced half, then draw the page for the parent: the freed page is there if no other is. */
    method ParentPage(key: Key, h: LeafHalves, halves: LeafIds, ghost a: Supply) returns (ids: LeafIds)
      requires Drew(a, supply, {halves.left, halves.right, halves.copy})
      requires halves.left != halves.right && halves.left != halves.copy && halves.right != halves.copy
      modifies this`supply
      ensures LeafIdsOK(key, h, ids, a, supply)
      ensures Drew(a, supply, {LeftID(key, h, ids), RightID(key, h, ids), ids.parent})
    {
      hide Less, Drew, InSupply, SupplyOK;
      var all := {halves.left, halves.right, halves.copy};
      var orphan := OrphanID(key, h, halves);
      DrewEnough(a, supply, all);
      FreePage(orphan, a, all);
      assert all - {orphan} == {LeftID(key, h, halves), RightID(key, h, halves)};
      var parent := Alloc(a, {LeftID(key, h, halves), RightID(key, h, halves)});
      ids := halves.(parent := parent.value);
      assert {LeftID(key, h, ids), RightID(key, h, ids)} + {ids.parent}
             == {LeftID(key, h, ids), RightID(key, h, ids), ids.parent};
      DrewIsDrawn(a, supply, {LeftID(key, h, ids), RightID(key, h, ids), ids.parent});
    }

    /** `handleLeafSplit`: split, write, publish in the parent, redirect, then cascade. */
    method HandleLeafSplit(path: seq<PathEntry>, key: Key, value: Value) returns (err: Option<Error>)
      requires Sound() && |path| >= 2 && IsPath(View(), shape, ROOT, key, path)
               && Quiet(View(), shape, {path[|path| - 1].ref})
      modifies this`refs, this`pages, this`nextRef, this`supply, this`shape
      ensures Sound()
      ensures err.None? <==> SplitAccepts(old(View()), path, key, value, Left(old(supply)))
      ensures err.Some? ==> refs == old(refs) && pages == old(pages) && shape == old(shape)
      ensures err.None? ==> path[|path| - 1].ref !in shape
      ensures err.None? ==> Quiet(View(), shape, {})
      ensures err.None? ==>
                MapUpdated(old(View()), old(shape[ROOT].level), View(), shape[ROOT].level, ROOT, key, value)
    {
      hide Inv, Counted, Quiet, Spine, IsPath, Lookup, ApplySplit, Splice, SplitAccepts;
      LeafCounted(View(), shape, key, path, nextRef, supply);
      var plan := PlanLeafSplit(path, key, value);
      if plan.Err? {
        return Some(plan.error);
      }
      var f' := ApplySplit(Forest(refs, pages), plan.value);
      refs, pages, nextRef := f'.refs, f'.pages, nextRef + 2;
      shape := ShapeAfterSplit(shape, plan.value);
      if NodeIsFull(plan.value.parentPage, 0) {
        ghost var stop;
        var ignored;
        ignored, stop := HandleInternalSplit(path, |path| - 2);
      }
      err := None;
    }

    // ---------------------------------------------------------------- the cascade

    /**
     `handleInternalSplit`: split full pages from `start` upward, up to a new root. It ends at level
     `stop`: with success because the page above is not full any more or the root has grown, with an
     error because the page at that level, the page above it or the pages left did not allow the split.
     */
    method HandleInternalSplit(path: seq<PathEntry>, start: nat) returns (err: Option<Error>, ghost stop: nat)
      requires Sound() && Quiet(View(), shape, {}) && Spine(View(), shape, path, start)
      modifies this`refs, this`pages, this`nextRef, this`supply, this`shape
      ensures Sound() && Quiet(View(), shape, {}) && stop <= start
      ensures stop < start || err.None? ==> start > 0 ==> path[start].ref !in shape
      ensures err.None? ==> if stop == 0 then shape[ROOT].level == old(shape[ROOT].level) + 1
                            else shape[ROOT].level == old(shape[ROOT].level) && NotFull(View(), path, stop)
      ensures err.Some? ==> shape[ROOT].level == old(shape[ROOT].level)
                            && if stop == 0 then !RootAccepts(View(), Left(supply))
                               else !InnerAccepts(View(), path, stop, Left(supply))
      ensures NoneRevived(old(shape), shape, old(nextRef))
      ensures MapSame(old(View()), old(shape[ROOT].level), View(), shape[ROOT].level, ROOT)
    {
      hide Lookup, Spine, Quiet, Counted, NodeOK, AllOK, DistinctIds, InnerAccepts, RootAccepts, SplitsNode;
      SpineCounted(View(), shape, path, start, nextRef, supply);
      var level: nat := start;
      while true
        invariant Sound() && Quiet(View(), shape, {}) && Spine(View(), shape, path, level)
        invariant level <= start && ROOT in shape && shape[ROOT].level == old(shape[ROOT].level)
        invariant level < start ==> path[start].ref !in shape
        invariant old(nextRef) <= nextRef && NoneRevived(old(shape), shape, old(nextRef))
        invariant MapSame(old(View()), old(shape[ROOT].level), View(), shape[ROOT].level, ROOT)
        decreases level
      {
        stop := level;
        if level < 1 {
          err := HandleRootInternalSplit(path);
          return;
        }
        var newParent;
        err, newParent := SplitBelow(path, level);
        if err.Some? || !NodeIsFull(newParent, 0) {
          return;
        }
        level := level - 1;
      }
    }

    /** The private part of one round of the cascade: split `path[level]` and prepare `path[level - 1]`. */
    method PlanInnerSplit(path: seq<PathEntry>, level: nat) returns (plan: Result<Split>)
      requires Sound() && Quiet(View(), shape, {}) && Spine(View(), shape, path, level) && level > 0
      modifies this`supply
      ensures Sound()
      ensures plan.Ok? ==> InnerPlan(View(), shape, path, level - 1, plan.value, nextRef, supply)
      ensures plan.Ok? ==> plan.value.child == path[level].ref && plan.value.left.id == nextRef
                           && plan.value.right.id == nextRef + 1
      ensures plan.Ok? <==> InnerAccepts(View(), path, level, Left(old(supply)))
      ensures plan.Err? ==> Left(supply) == Left(old(supply))
    {
      hide Less, CountLeq, LeafOK, InsertChild, NodeSplit, Distribute, Splice, Lookup, ApplySplit, InnerPlan, KeyBytes,
        NodeKeys, NodeChildren, SeparatorsWithin, Quiet, Spine, AllOK, DistinctIds, SplitsNode, Drew, InSupply,
        SupplyOK;
      SpineNodes(View(), shape, path, level);
      var current, parent := path[level].ref, path[level - 1].ref;
      var i := ChildPosition(parent, current, path[level - 1].index);
      var id, node, cache := refs[current].info.pageID, pages[refs[current].info.pageID].node,
        refs[current].children.value;
      ghost var a := supply;
      CountedSupply(View(), shape, nextRef, a);
      DrewNone(a);
      NodeSplitExact(id, node);
      var split := SplitNodePages(id, node, a);
      if split.Err? {
        DrewSound(View(), shape, nextRef, a, supply, {});
        return Err(split.error);
      }
      var h, ids := split.value.0, split.value.1;
      var caches := Distribute(cache, |NodeChildren(h.left)|);
      DistributeBoth(View(), id, cache, node, h);
      var inserted := InsertChild(pages[refs[parent].info.pageID].node, i, h.splitKey, ids.left, ids.right);
      InnerDrawn(ids, a, supply);
      MiddleKey(id, node, h);
      InsertChildSplices(pages[refs[parent].info.pageID].node, i, h.splitKey, ids.left, ids.right);
      if inserted.Err? {
        FreeThree(ids, a);
        DrewSound(View(), shape, nextRef, a, supply, {});
        return Err(inserted.error);
      }
      QuietWeaken(View(), shape, current);
      InnerPlanned(View(), shape, path, level, i, h, caches.left.value, caches.right.value, inserted.value, nextRef,
                   ids, a, supply);
      CountedWithin(View(), shape, nextRef, a, supply);
      return Ok(InnerSplitOf(Forest(refs, pages), parent, current, i, h, caches, inserted.value, nextRef, ids));
    }

    /** One round of the cascade below the root: split `path[level]` and insert the halves into `path[level - 1]`. */
    method SplitBelow(path: seq<PathEntry>, level: nat) returns (err: Option<Error>, newParent: NodePage)
      requires Sound() && Quiet(View(), shape, {}) && Spine(View(), shape, path, level) && level > 0
      modifies this`refs, this`pages, this`nextRef, this`supply, this`shape
      ensures Sound() && Quiet(View(), shape, {})
      ensures err.None? <==> InnerAccepts(old(View()), path, level, Left(old(supply)))
      ensures err.None? ==> Spine(View(), shape, path, level - 1) && shape[ROOT] == old(shape[ROOT])
      ensures err.None? ==> Replaced(old(shape), shape, path[level].ref, old(nextRef)) && nextRef == old(nextRef) + 2
      ensures err.None? ==> level - 1 < |path| && PageNow(View(), path[level - 1].ref, newParent)
      ensures err.Some? ==> View() == old(View()) && shape == old(shape) && nextRef == old(nextRef)
                            && Left(supply) == Left(old(supply))
      ensures MapSame(old(View()), old(shape[ROOT].level), View(), shape[ROOT].level, ROOT)
    {
      hide Inv, Counted, Quiet, Spine, Lookup, ApplySplit, Splice, InnerAccepts;
      var plan := PlanInnerSplit(path, level);
      if plan.Err? {
        return Some(plan.error), EMPTY_NODE;
      }
      var f' := ApplySplit(Forest(refs, pages), plan.value);
      refs, pages, nextRef := f'.refs, f'.pages, nextRef + 2;
      shape := ShapeAfterSplit(shape, plan.value);
      return None, plan.value.parentPage;
    }

    /** `handleRootInternalSplit`: the cascade has reached the root. */
    method HandleRootInternalSplit(ghost path: seq<PathEntry>) returns (err: Option<Error>)
      requires Sound() && Quiet(View(), shape, {}) && Spine(View(), shape, path, 0)
      modifies this`refs, this`pages, this`nextRef, this`supply, this`shape
      ensures Sound() && Quiet(View(), shape, {})
      ensures err.None? <==> RootAccepts(old(View()), Left(old(supply)))
      ensures err.None? ==> shape[ROOT].level == old(shape[ROOT].level) + 1
                            && shape.Keys == old(shape).Keys + {old(nextRef), old(nextRef) + 1}
      ensures err.Some? ==> View() == old(View()) && shape == old(shape) && Left(supply) == Left(old(supply))
      ensures MapSame(old(View()), old(shape[ROOT].level), View(), shape[ROOT].level, ROOT)
    {
      hide Inv, Counted, Quiet, Spine, Lookup, ApplyRoot, RootAccepts;
      var plan := PlanRootInner(path);
      if plan.Err? {
        return Some(plan.error);
      }
      var f' := ApplyRoot(Forest(refs, pages), ROOT, plan.value);
      refs, pages, nextRef := f'.refs, f'.pages, nextRef + 2;
      shape := ShapeAfterRoot(shape, ROOT, plan.value);
      err := None;
    }

    /**
     The private part of `handleRootInternalSplit`: a blank page is drawn, copied into the root page
     and freed again.
     */
    method PlanRootInner(ghost path: seq<PathEntry>) returns (plan: Result<RootSplit>)
      requires Sound() && Quiet(View(), shape, {}) && Spine(View(), shape, path, 0)
      modifies this`supply
      ensures Sound()
      ensures plan.Ok? ==> RootInnerPlan(View(), shape, plan.value, nextRef, supply)
      ensures plan.Ok? <==> RootAccepts(View(), Left(old(supply)))
      ensures plan.Err? ==> Left(supply) == Left(old(supply))
    {
      hide Less, CountLeq, LeafOK, InsertChild, NodeSplit, Distribute, Lookup, ApplyRoot, NodeKeys, NodeChildren,
        SeparatorsWithin, Quiet, MapSame, KeyBytes, SplitsNode, Drew, InSupply, SupplyOK;
      assert NodeOK(View(), shape, ROOT);
      var id, node, cache := refs[ROOT].info.pageID, pages[refs[ROOT].info.pageID].node, refs[ROOT].children.value;
      ghost var a := supply;
      CountedSupply(View(), shape, nextRef, a);
      DrewNone(a);
      NodeSplitExact(id, node);
      var split := SplitRootPages(id, node, a);
      if split.Err? {
        DrewSound(View(), shape, nextRef, a, supply, {});
        return Err(split.error);
      }
      var h, ids := split.value.0, split.value.1;
      var caches := Distribute(cache, |NodeChildren(h.left)|);
      DistributeBoth(View(), id, cache, node, h);
      InnerDrawn(ids, a, supply);
      RootNodeBuilt(id, node, ids, a, supply);
      var rootPage := InsertChild(EMPTY_NODE, 0, h.splitKey, ids.left, ids.right);
      QuietWeaken(View(), shape, ROOT);
      RootInnerSplitPublished(View(), shape, h, caches.left.value, caches.right.value, rootPage.value, nextRef, ids, a,
                              supply);
      CountedWithin(View(), shape, nextRef, a, supply);
      return Ok(RootInnerSplitOf(Forest(refs, pages), h, caches, rootPage.value, nextRef, ids));
    }

    /** Split the root node onto private pages; the blank page under the new root is freed again. */
    method SplitRootPages(id: PageID, node: NodePage, ghost a: Supply) returns (r: Result<(NodeHalves, InnerIds)>)
      requires Drew(a, supply, {})
      modifies this`supply
      ensures r.Ok? <==> Left(a) >= 4 && NodeSplit(id, node).Ok?
      ensures r.Ok? ==> NodeSplit(id, node) == Ok(r.value.0)
      ensures r.Ok? ==> var ids := r.value.1;
                        && ids.left != ids.right && ids.parent != ids.left && ids.parent != ids.right
                        && Drew(a, supply, {ids.left, ids.right, ids.parent})
      ensures r.Err? ==> Drew(a, supply, {})
    {
      hide Drew, NodeSplit;
      r := SplitNodePages(id, node, a);
      if r.Err? {
        return;
      }
      var left, right, blank := r.value.1.left, r.value.1.right, r.value.1.parent;
      var page := Alloc(a, {left, right, blank});
      if page.None? {
        FreeThree(r.value.1, a);
        return Err(OutOfMemory);
      }
      FreePage(blank, a, {left, right, blank} + {page.value});
      assert {left, right, blank} + {page.value} - {blank} == {left, right, page.value};
      return Ok((r.value.0, InnerIds(left, right, page.value)));
    }

    // ---------------------------------------------------------------- the root leaf

    /** `handleRootSplit`: the root is a leaf and becomes an internal page over two leaves. */
    method HandleRootSplit(key: Key, value: Value) returns (err: Option<Error>)
      requires Sound() && shape[ROOT].level == 0 && Quiet(View(), shape, {ROOT})
      modifies this`refs, this`pages, this`nextRef, this`supply, this`shape
      ensures Sound()
      ensures forall path: seq<PathEntry> :: |path| == 1 && path[0].ref == ROOT ==>
                (err.None? <==> SplitAccepts(old(View()), path, key, value, Left(old(supply))))
      ensures err.Some? ==> refs == old(refs) && pages == old(pages) && shape == old(shape)
      ensures err.None? ==> shape[ROOT].level == 1
      ensures err.None? ==> Quiet(View(), shape, {})
      ensures err.None? ==>
                MapUpdated(old(View()), old(shape[ROOT].level), View(), shape[ROOT].level, ROOT, key, value)
    {
      hide Inv, Counted, Quiet, Lookup, ApplyRoot, SplitAccepts;
      var plan := PlanRootLeaf(key, value);
      if plan.Err? {
        return Some(plan.error);
      }
      var f' := ApplyRoot(Forest(refs, pages), ROOT, plan.value);
      refs, pages, nextRef := f'.refs, f'.pages, nextRef + 2;
      shape := ShapeAfterRoot(shape, ROOT, plan.value);
      err := None;
    }

    /** The private part of `handleRootSplit`. */
    method PlanRootLeaf(key: Key, value: Value) returns (plan: Result<RootSplit>)
      requires Sound() && shape[ROOT].level == 0 && Quiet(View(), shape, {ROOT})
      modifies this`supply
      ensures Sound()
      ensures plan.Ok? ==> RootLeafPlan(View(), shape, key, value, plan.value, nextRef, supply)
      ensures forall path: seq<PathEntry> :: |path| == 1 && path[0].ref == ROOT ==>
                (plan.Ok? <==> SplitAccepts(View(), path, key, value, Left(old(supply))))
    {
      hide Less, CountLeq, LeafGet, SortedEntries, EntriesWithin, InsertChild, SplitAndSet, Lookup, ApplyRoot, LeftID,
        RightID, Quiet, MapUpdated, Drew, InSupply, SupplyOK, EntryBytes;
      assert NodeOK(View(), shape, ROOT);
      var leaf := pages[refs[ROOT].info.pageID].leaf;
      ghost var a := supply;
      CountedSupply(View(), shape, nextRef, a);
      DrewNone(a);
      var split := SplitRootLeafPages(leaf, key, value, a);
      if split.Err? {
        CountedWithin(View(), shape, nextRef, a, supply);
        return Err(split.error);
      }
      var h, ids := split.value.0, split.value.1;
      RootPageBuilt(leaf, key, value, ids, a, supply);
      var rootPage := InsertChild(EMPTY_NODE, 0, h.splitKey, LeftID(key, h, ids), RightID(key, h, ids));
      RootLeafSplitPublished(View(), shape, key, value, h, rootPage.value, nextRef, ids, a, supply);
      CountedWithin(View(), shape, nextRef, a, supply);
      return Ok(RootLeafSplitOf(Forest(refs, pages), key, h, rootPage.value, nextRef, ids));
    }

    /**
     The five pages of `handleRootSplit`; the replaced half and the blank root page are freed in the end.
     A failure after the write leaks what the code does not free.
     */
    method SplitRootLeafPages(leaf: LeafPage, key: Key, value: Value, ghost a: Supply)
      returns (r: Result<(LeafHalves, LeafIds)>)
      requires Drew(a, supply, {})
      modifies this`supply
      ensures Within(supply, a)
      ensures r.Ok? <==> Left(a) >= 5 && SplitAndSet(leaf, key, value).Ok?
      ensures r.Ok? ==> SplitAndSet(leaf, key, value) == Ok(r.value.0)
                        && LeafIdsOK(key, r.value.0, r.value.1, a, supply)
    {
      hide Drew, SplitAndSet, Less, InSupply, SupplyOK;
      r := SplitLeafPages(leaf, key, value, a);
      if r.Err? {
        DrewIsDrawn(a, supply, {});
        return;
      }
      var h, halves := r.value.0, r.value.1;
      ghost var three := {halves.left, halves.right, halves.copy};
      var blank := Alloc(a, three);
      if blank.None? {
        FreePage(halves.left, a, three);
        FreePage(halves.right, a, three - {halves.left});
        DrewIsDrawn(a, supply, three - {halves.left} - {halves.right});
        return Err(OutOfMemory);
      }
      ghost var four := three + {blank.value};
      var page := Alloc(a, four);
      if page.None? {
        FreePage(blank.value, a, four);
        DrewIsDrawn(a, supply, four - {blank.value});
        return Err(OutOfMemory);
      }
      ghost var five := four + {page.value};
      var orphan := OrphanID(key, h, halves);
      FreePage(orphan, a, five);
      FreePage(blank.value, a, five - {orphan});
      var ids := halves.(parent := page.value);
      DrewIsDrawn(a, supply, five - {orphan} - {blank.value});
      return Ok((h, ids));
    }

    /** `doSplitWithSplitting`: a failed split rolls the leaf back to the page info it had. */
    method DoSplit(path: seq<PathEntry>, splitting: PageInfo, oldInfo: PageInfo, key: Key, value: Value)
      returns (err: Option<Error>)
      requires Sound() && IsPath(View(), shape, ROOT, key, path)
      requires var leaf := path[|path| - 1].ref;
               leaf in refs && refs[leaf].info == splitting && splitting.state == Splitting
                 && Quiet(View(), shape, {leaf})
      requires splitting.pageID == oldInfo.pageID && splitting.isLeaf && oldInfo.isLeaf
      requires Usable(oldInfo) && oldInfo.state != Splitting
      modifies this`refs, this`pages, this`nextRef, this`supply, this`shape
      ensures Sound() && Quiet(View(), shape, {})
      ensures err.None? <==> SplitAccepts(old(View()), path, key, value, Left(old(supply)))
      ensures err.Some? ==> MapSame(old(View()), old(shape[ROOT].level), View(), shape[ROOT].level, ROOT)
      ensures err.None? ==> MapUpdated(old(View()), old(shape[ROOT].level), View(), shape[ROOT].level, ROOT, key, value)
    {
      hide Less, CountLeq, LeafGet, Lookup, LeafOK, InnerOK, SplitAccepts;
      ghost var f, sh := View(), shape;
      var leaf := path[|path| - 1].ref;
      assert OnPath(shape, key, path, |path| - 1);
      if |path| < 2 {
        err := HandleRootSplit(key, value);
      } else {
        err := HandleLeafSplit(path, key, value);
      }
      if err.Some? {
        refs := refs[leaf := refs[leaf].(info := oldInfo)];
        RelabelOne(f, sh, leaf, oldInfo);
      }
    }

    // ---------------------------------------------------------------- writing

    /** The write that needs no split: a copy of the leaf with the new entry, published in one step. */
    method WriteLeaf(path: seq<PathEntry>, key: Key, value: Value) returns (err: Option<Error>)
      requires Sound() && IsPath(View(), shape, ROOT, key, path) && Quiet(View(), shape, {})
      modifies this`refs, this`pages, this`supply
      ensures Sound() && Quiet(View(), shape, {})
      ensures var leaf := PathLeaf(old(View()), path);
              leaf.Some? && (err.None? <==> Left(old(supply)) >= 1 && LeafSet(leaf.value, key, value).Ok?)
      ensures err.Some? ==> View() == old(View())
      ensures err.None? ==> MapUpdated(old(View()), old(shape[ROOT].level), View(), shape[ROOT].level, ROOT, key, value)
    {
      hide Less, CountLeq, LeafGet, Lookup, LeafSet, LeafFits, SortedEntries, EntriesWithin, InnerOK, Drew, SupplyOK,
        InSupply;
      var leaf := path[|path| - 1].ref;
      assert OnPath(shape, key, path, |path| - 1);
      assert NodeOK(View(), shape, leaf);
      var page := pages[refs[leaf].info.pageID].leaf;
      ghost var a := supply;
      CountedSupply(View(), shape, nextRef, a);
      DrewNone(a);
      var id := Alloc(a, {});
      if id.None? {
        return Some(OutOfMemory);
      }
      var updated := LeafSet(page, key, value);
      if updated.Err? {
        FreePage(id.value, a, {} + {id.value});
        DrewSound(View(), shape, nextRef, a, supply, {} + {id.value} - {id.value});
        return Some(updated.error);
      }
      PageIsNew(View(), shape, nextRef, a, supply, id.value);
      var info := PageInfo(id.value, refs[leaf].info.version + 1, true, Normal, false);
      LeafSetIsUpdate(page, key, value, shape[leaf].lo, shape[leaf].hi);
      LeafWritten(View(), shape, ROOT, path, key, value, updated.value, info);
      CountedWrite(View(), shape, nextRef, supply, leaf, info, Leaf(updated.value));
      refs, pages := refs[leaf := refs[leaf].(info := info)], pages[id.value := Leaf(updated.value)];
      err := None;
    }

    /** The split branch of `writeOperation`: mark the leaf, then split it. */
    method SplitAndWrite(path: seq<PathEntry>, key: Key, value: Value) returns (err: Option<Error>)
      requires Sound() && IsPath(View(), shape, ROOT, key, path) && Quiet(View(), shape, {})
      modifies this`refs, this`pages, this`nextRef, this`supply, this`shape
      ensures Sound() && Quiet(View(), shape, {})
      ensures err.None? <==> SplitAccepts(old(View()), path, key, value, Left(old(supply)))
      ensures err.Some? ==> MapSame(old(View()), old(shape[ROOT].level), View(), shape[ROOT].level, ROOT)
      ensures err.None? ==> MapUpdated(old(View()), old(shape[ROOT].level), View(), shape[ROOT].level, ROOT, key, value)
    {
      hide Less, CountLeq, LeafGet, Lookup, LeafFits, SortedEntries, EntriesWithin, InnerOK, SplitAccepts;
      ghost var f, sh := View(), shape;
      var leaf := path[|path| - 1].ref;
      assert OnPath(sh, key, path, |path| - 1);
      assert NodeOK(f, sh, leaf);
      var info := refs[leaf].info;
      var splitting := PageInfo(info.pageID, info.version + 1, true, Splitting, false);
      refs := refs[leaf := refs[leaf].(info := splitting)];
      RelabelOne(f, sh, leaf, splitting);
      SamePath(f, sh, key, path, View());
      SplitAcceptsSame(f, sh, path, key, value, Left(supply), splitting);
      err := DoSplit(path, splitting, info, key, value);
    }

    /**
     `btreeStorageAdapter.Set` through `writeOperation`: success updates the map, an error leaves it
     alone, and which of the two it is can be told from the leaf, its parent and the pages left.
     */
    method Set(key: Key, value: Value) returns (err: Option<Error>)
      requires Valid()
      modifies this
      ensures Valid()
      ensures err.None? ==> contents == old(contents)[key := value]
      ensures err.Some? ==> contents == old(contents)
      ensures forall path :: IsPath(old(View()), old(shape), ROOT, key, path) ==>
                (err.None? <==> Accepts(old(View()), path, key, value, Left(old(supply))))
      ensures forall path :: IsPath(old(View()), old(shape), ROOT, key, path)
                             && SmallWrite(old(View()), path, key, value) ==>
                (err.None? <==> SmallAccepts(old(View()), path, key, Left(old(supply))))
    {
      hide Less, SplitAccepts, SplitAndSet, LeafSet, Lookup, LeafFits, SortedEntries, EntriesWithin, InnerOK, Quiet,
        Counted, SmallWrite, SmallAccepts;
      var path := SearchPath(key);
      var leaf := path[|path| - 1].ref;
      assert OnPath(shape, key, path, |path| - 1);
      assert NodeOK(View(), shape, leaf);
      if LeafIsFull(pages[refs[leaf].info.pageID].leaf, |key|, 0) {
        err := SplitAndWrite(path, key, value);
      } else {
        err := WriteLeaf(path, key, value);
      }
      if err.None? {
        contents := contents[key := value];
      }
      forall p | IsPath(old(View()), old(shape), ROOT, key, p)
        ensures err.None? <==> Accepts(old(View()), p, key, value, Left(old(supply)))
      {
        AcceptsUnique(old(View()), old(shape), key, value, path, p, Left(old(supply)));
      }
      forall p | IsPath(old(View()), old(shape), ROOT, key, p) && SmallWrite(old(View()), p, key, value)
        ensures err.None? <==> SmallAccepts(old(View()), p, key, Left(old(supply)))
      {
        SmallExact(old(View()), old(shape), p, key, value, Left(old(supply)));
      }
    }

    /**
     The reclaimer frees a retired page: it may be handed out again. No live reference holds it, neither
     as its page nor as its identity; references that have left the tree and were made for it are gone.
     */
    method Reclaim(id: PageID)
      requires Valid() && id in pages && id > 0
      requires forall r :: r in shape && r in refs ==> refs[r].pageID != id && refs[r].info.pageID != id
      modifies this`refs, this`pages, this`supply
      ensures Valid() && contents == old(contents) && Left(supply) == Left(old(supply)) + 1 && InSupply(supply, id)
    {
      hide Lookup, SupplyOK;
      ghost var f := View();
      CountedSupply(f, shape, nextRef, supply);
      assert id < supply.next && !InSupply(supply, id);
      refs := map r | r in refs && refs[r].pageID != id :: refs[r];
      pages := pages - {id};
      GiveReturns(supply, id);
      ReclaimSound(f, shape, View(), id);
      supply := Give(supply, id);
    }
  }
}
