/**
 The separator cache of an internal page reference (children_cache.go) and its two updates
 (operations.go), kept in lockstep with the physical index page.
 */
module ChildrenCache {
  import opened Bytes
  import opened Pages

  type RefId = nat

  datatype Cache = Cache(children: seq<RefId>, separators: seq<Key>)

  /** The immutable `pageID` of every page reference. */
  type PageIds = map<RefId, PageID>

  /** The cache shows the same separators and children as the physical page. */
  ghost predicate Mirrors(c: Cache, ids: PageIds, p: NodePage) {
    && |c.children| == |c.separators| + 1
    && c.separators == NodeKeys(p)
    && forall i :: 0 <= i < |c.children| ==> c.children[i] in ids && ids[c.children[i]] == NodeChildren(p)[i]
  }

  /** Position of the first child whose page ID is `id`. */
  function FirstWithId(children: seq<RefId>, ids: PageIds, id: PageID): (r: Option<nat>)
    ensures r.None? <==> forall i :: 0 <= i < |children| ==> !(children[i] in ids && ids[children[i]] == id)
    ensures r.Some? ==> r.value < |children| && children[r.value] in ids && ids[children[r.value]] == id
    ensures r.Some? ==> forall i :: 0 <= i < r.value ==> !(children[i] in ids && ids[children[i]] == id)
  {
    if children == [] then None
    else if children[0] in ids && ids[children[0]] == id then Some(0)
    else
      var r := FirstWithId(children[1..], ids, id);
      if r.None? then None else Some(r.value + 1)
  }

  function Splice(c: Cache, index: nat, left: RefId, right: RefId, splitKey: Key): (r: Cache)
    requires index < |c.children| && index <= |c.separators|
    ensures |r.children| == |c.children| + 1 && |r.separators| == |c.separators| + 1
  {
    Cache(c.children[..index] + [left, right] + c.children[index + 1..],
          c.separators[..index] + [splitKey] + c.separators[index..])
  }

  /** `updateChildrenCache`: the cache stays as it is when the old child is not found. */
  function UpdateChildren(c: Cache, ids: PageIds, oldChildID: PageID, left: RefId, right: RefId,
                          splitKey: Key): (r: Cache)
    requires |c.children| == |c.separators| + 1
  {
    var i := FirstWithId(c.children, ids, oldChildID);
    if i.None? then c else Splice(c, i.value, left, right, splitKey)
  }

  datatype CacheHalves = CacheHalves(left: Option<Cache>, right: Option<Cache>)

  /** `distributeChildrenAfterSplit` with the child count of the left page. */
  function Distribute(c: Cache, leftCount: nat): (r: CacheHalves)
    requires |c.children| == |c.separators| + 1
  {
    if leftCount == 0 || leftCount > |c.children| then CacheHalves(None, None)
    else
      var left := Cache(c.children[..leftCount], c.separators[..leftCount - 1]);
      if leftCount == |c.children| then CacheHalves(Some(left), None)
      else CacheHalves(Some(left), Some(Cache(c.children[leftCount..], c.separators[leftCount..])))
  }

  /**
   `updateChildrenCache` finds its child by page ID. It splices at the intended position exactly
   when no earlier sibling carries the same page ID.
   */
  lemma UpdateHitsIntended(c: Cache, ids: PageIds, index: nat, left: RefId, right: RefId, splitKey: Key)
    requires |c.children| == |c.separators| + 1 && index < |c.children| && c.children[index] in ids
    requires forall i :: 0 <= i < |c.children| ==> c.children[i] != left
    ensures UpdateChildren(c, ids, ids[c.children[index]], left, right, splitKey)
            == Splice(c, index, left, right, splitKey)
            <==> forall i :: 0 <= i < index ==> !(c.children[i] in ids && ids[c.children[i]] == ids[c.children[index]])
  {
    var id := ids[c.children[index]];
    var f := FirstWithId(c.children, ids, id).value;
    assert Splice(c, f, left, right, splitKey).children[f] == left;
    assert f < index ==> Splice(c, index, left, right, splitKey).children[f] == c.children[f];
  }

  /**
   Publishing a split in the cache keeps it in lockstep with `InsertChild` on the page. The child
   that goes away need not have its page ID any more.
   */
  lemma UpdateMirrors(c: Cache, ids: PageIds, p: NodePage, index: nat, left: RefId, right: RefId, splitKey: Key)
    requires |c.children| == |c.separators| + 1
    requires c.separators == NodeKeys(p)
    requires forall i :: 0 <= i < |c.children| && i != index ==>
               c.children[i] in ids && ids[c.children[i]] == NodeChildren(p)[i]
    requires index < |c.children| && left in ids && right in ids
    requires InsertChild(p, index, splitKey, ids[left], ids[right]).Ok?
    ensures Mirrors(Splice(c, index, left, right, splitKey), ids,
                    InsertChild(p, index, splitKey, ids[left], ids[right]).value)
  {
    InsertChildSplices(p, index, splitKey, ids[left], ids[right]);
  }

  /** Distributing the cache after a node split keeps both halves in lockstep with the split pages. */
  lemma DistributeMirrors(c: Cache, ids: PageIds, id: PageID, p: NodePage)
    requires Mirrors(c, ids, p) && NodeSplit(id, p).Ok?
    ensures var h := NodeSplit(id, p).value;
            var d := Distribute(c, |NodeChildren(h.left)|);
            && d.left.Some? && Mirrors(d.left.value, ids, h.left)
            && d.right.Some? && Mirrors(d.right.value, ids, h.right)
  {
    NodeSplitCuts(id, p);
  }
}
