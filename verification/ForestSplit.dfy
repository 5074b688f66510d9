/**
 What a split does to the tree: a child is replaced by two halves in its parent, or the root
 becomes the parent of its own two halves. Leaf splits may change one key, internal splits none.
 */
module ForestSplit {
  import opened Bytes
  import opened Pages
  import opened ChildrenCache
  import opened Forest

  /** A new page reference together with its page. */
  datatype Half = Half(id: RefId, ref: PageRef, page: Page)

  datatype Split = Split(parent: RefId, index: nat, child: RefId, left: Half, right: Half, splitKey: Key,
                         parentInfo: PageInfo, parentPage: NodePage, childInfo: PageInfo)

  /** Everything the tree had, apart from the references in `changed`, is still there. */
  ghost predicate Extends(f: Forest, f': Forest, changed: set<RefId>) {
    && (forall x :: x in f.refs && x !in changed ==> x in f'.refs && f'.refs[x] == f.refs[x])
    && (forall id :: id in f.pages ==> id in f'.pages && f'.pages[id] == f.pages[id])
  }

  /** A half has become part of the tree, under a page ID that no reference held before. */
  ghost predicate HasHalf(f: Forest, f': Forest, h: Half) {
    && h.id !in f.refs && h.id in f'.refs && f'.refs[h.id] == h.ref && Labelled(f', h.id)
    && h.ref.info.pageID == h.ref.pageID && h.ref.pageID in f'.pages && f'.pages[h.ref.pageID] == h.page
    && forall x :: x in f.refs ==> f.refs[x].pageID != h.ref.pageID
  }

  /** The state after the parent page and cache are replaced and the split child is redirected. */
  ghost predicate SplitTo(f: Forest, f': Forest, s: Split)
    requires s.parent in f.refs && f.refs[s.parent].children.Some?
    requires var c := f.refs[s.parent].children.value; s.index < |c.children| == |c.separators| + 1
  {
    var c := f.refs[s.parent].children.value;
    && Extends(f, f', {s.parent, s.child}) && HasHalf(f, f', s.left) && HasHalf(f, f', s.right)
    && s.left.id != s.right.id && s.left.ref.pageID != s.right.ref.pageID
    && s.parent in f'.refs && Labelled(f', s.parent)
    && f'.refs[s.parent] == PageRef(f.refs[s.parent].pageID, s.parentInfo,
                                    Some(Splice(c, s.index, s.left.id, s.right.id, s.splitKey)))
    && !s.parentInfo.isLeaf && s.parentInfo.pageID in f'.pages && f'.pages[s.parentInfo.pageID] == Node(s.parentPage)
    && s.child in f'.refs && s.child in f.refs && f'.refs[s.child] == f.refs[s.child].(info := s.childInfo)
    && s.childInfo.isLeaf == f.refs[s.child].info.isLeaf && s.childInfo.pageID == f.refs[s.child].info.pageID
  }

  /** Publish a split: parent page and cache, redirect of the child, and the two halves. */
  function ApplySplit(f: Forest, s: Split): Forest
    requires s.parent in f.refs && s.child in f.refs && f.refs[s.parent].children.Some?
    requires var c := f.refs[s.parent].children.value; s.index < |c.children| == |c.separators| + 1
  {
    var c := f.refs[s.parent].children.value;
    Forest(f.refs[s.parent := PageRef(f.refs[s.parent].pageID, s.parentInfo,
                                      Some(Splice(c, s.index, s.left.id, s.right.id, s.splitKey)))]
                 [s.child := f.refs[s.child].(info := s.childInfo)]
                 [s.left.id := s.left.ref][s.right.id := s.right.ref],
           f.pages[s.parentInfo.pageID := Node(s.parentPage)]
                  [s.left.ref.pageID := s.left.page][s.right.ref.pageID := s.right.page])
  }

  /** The references and pages a split adds are new, and the page infos it installs are usable. */
  ghost predicate FreshSplit(f: Forest, s: Split) {
    && FreshHalf(f, s.left) && FreshHalf(f, s.right)
    && s.left.id != s.right.id && s.left.ref.pageID != s.right.ref.pageID
    && s.parentInfo.pageID !in f.pages && s.parentInfo.pageID != s.left.ref.pageID
       && s.parentInfo.pageID != s.right.ref.pageID
    && !s.parentInfo.isLeaf && Usable(s.parentInfo)
  }

  ghost predicate FreshHalf(f: Forest, h: Half) {
    && h.id !in f.refs && h.ref.info.pageID == h.ref.pageID && h.ref.pageID !in f.pages && Usable(h.ref.info)
    && forall x :: x in f.refs ==> f.refs[x].pageID != h.ref.pageID
  }

  ghost predicate Usable(info: PageInfo) {
    !info.redirect && info.state != Redirect
  }

  lemma ApplyIsSplitTo(f: Forest, s: Split)
    requires s.parent in f.refs && s.child in f.refs && s.parent != s.child && f.refs[s.parent].children.Some?
    requires var c := f.refs[s.parent].children.value; s.index < |c.children| == |c.separators| + 1
    requires FreshSplit(f, s)
    requires s.childInfo.isLeaf == f.refs[s.child].info.isLeaf && s.childInfo.pageID == f.refs[s.child].info.pageID
    ensures var f' := ApplySplit(f, s);
            && SplitTo(f, f', s)
            && f'.refs.Keys == f.refs.Keys + {s.left.id, s.right.id}
            && f'.pages.Keys == f.pages.Keys + {s.parentInfo.pageID, s.left.ref.pageID, s.right.ref.pageID}
  {
    hide Splice;
  }

  /** The split is one the tree admits: the key lies strictly inside the range of the child. */
  ghost predicate SplitOK(f: Forest, sh: Shape, root: RefId, s: Split) {
    && Inv(f, sh, root) && s.parent in sh && sh[s.parent].level > 0 && NodeOK(f, sh, s.parent)
    && (var c := f.refs[s.parent].children.value;
        s.index < |c.children| && c.children[s.index] == s.child)
    && s.child in sh && s.child != root && sh[s.child].parent == Some(s.parent)
       && sh[s.child].level + 1 == sh[s.parent].level
    && InsertChild(f.pages[f.refs[s.parent].info.pageID].node, s.index, s.splitKey,
                   s.left.ref.pageID, s.right.ref.pageID) == Ok(s.parentPage)
    && Between(sh[s.child], s.splitKey)
  }

  ghost predicate Between(p: Place, k: Key) {
    (p.lo.Some? ==> Less(p.lo.value, k)) && (p.hi.Some? ==> Less(k, p.hi.value))
  }

  /** Children of a split page move under the half their range lies in. */
  ghost function Reparent(p: Place, child: RefId, left: RefId, right: RefId, splitKey: Key): Place {
    if p.parent != Some(child) then p
    else p.(parent := Some(if p.hi.Some? && !Less(splitKey, p.hi.value) then left else right))
  }

  ghost function ShapeAfterSplit(sh: Shape, s: Split): (sh': Shape)
    requires s.child in sh && s.left.id !in sh && s.right.id !in sh && s.left.id != s.right.id
    ensures sh'.Keys == sh.Keys - {s.child} + {s.left.id, s.right.id}
    ensures forall x :: x in sh && x != s.child ==>
            x in sh' && sh'[x] == Reparent(sh[x], s.child, s.left.id, s.right.id, s.splitKey)
    ensures s.left.id in sh' && sh'[s.left.id]
            == Place(sh[s.child].lo, Some(s.splitKey), sh[s.child].level, Some(s.parent))
    ensures s.right.id in sh' && sh'[s.right.id]
            == Place(Some(s.splitKey), sh[s.child].hi, sh[s.child].level, Some(s.parent))
  {
    (map x | x in sh && x != s.child :: Reparent(sh[x], s.child, s.left.id, s.right.id, s.splitKey))
    [s.left.id := Place(sh[s.child].lo, Some(s.splitKey), sh[s.child].level, Some(s.parent))]
    [s.right.id := Place(Some(s.splitKey), sh[s.child].hi, sh[s.child].level, Some(s.parent))]
  }

  /** A separator put between its neighbours keeps the separators ordered and in range. */
  lemma SpliceSeparators(p: Place, c: Cache, i: nat, s: Key)
    requires SeparatorsWithin(c.separators, p.lo, p.hi) && i <= |c.separators|
    requires ChildLo(p, c, i).Some? ==> Less(ChildLo(p, c, i).value, s)
    requires ChildHi(p, c, i).Some? ==> Less(s, ChildHi(p, c, i).value)
    ensures SeparatorsWithin(c.separators[..i] + [s] + c.separators[i..], p.lo, p.hi)
  {
    hide Less;
    var ks := c.separators;
    var ks' := ks[..i] + [s] + ks[i..];
    forall j | 0 <= j < i ensures Less(ks[j], s) {
      if j < i - 1 {
        LessTransitive(ks[j], ks[i - 1], s);
      }
    }
    forall j | i <= j < |ks| ensures Less(s, ks[j]) {
      if i < j {
        LessTransitive(s, ks[i], ks[j]);
      }
    }
    if p.lo.Some? && i > 0 {
      LessTransitive(p.lo.value, ks[i - 1], s);
    }
    if p.hi.Some? && i < |ks| {
      LessTransitive(s, ks[i], p.hi.value);
    }
    forall a, b | 0 <= a < b < |ks'| ensures Less(ks'[a], ks'[b]) {}
  }

  /** The separators route a key past a spliced one exactly as expected. */
  lemma SpliceRoutes(p: Place, c: Cache, i: nat, s: Key, k: Key)
    requires SeparatorsWithin(c.separators, p.lo, p.hi) && i <= |c.separators|
    requires SeparatorsWithin(c.separators[..i] + [s] + c.separators[i..], p.lo, p.hi)
    ensures var j := CountLeq(c.separators, k);
            CountLeq(c.separators[..i] + [s] + c.separators[i..], k)
            == if j < i || (j == i && Less(k, s)) then j else j + 1
  {
    hide Less, CountLeq;
    var ks := c.separators;
    var ks' := ks[..i] + [s] + ks[i..];
    CountLeqCuts(ks, k);
    var j := CountLeq(ks, k);
    var j' := if j < i || (j == i && Less(k, s)) then j else j + 1;
    assert ks'[i] == s;
    if j < i {
      assert ks'[j] == ks[j];
      LessTransitive(k, ks'[j], s);
    } else if j > i {
      assert ks'[j] == ks[j - 1];
      if Less(k, s) {
        LessTransitive(k, s, ks'[j]);
      }
    }
    forall a | 0 <= a < |ks'| ensures a < j' <==> !Less(k, ks'[a]) {
      assert ks'[a] == if a < i then ks[a] else if a == i then s else ks[a - 1];
    }
    CutIsCount(ks', k, j');
  }

  /** A reference whose content and children are untouched stays well-formed. */
  lemma NodeFrame(f: Forest, sh: Shape, f': Forest, sh': Shape, x: RefId)
    requires x in sh && x in sh' && NodeOK(f, sh, x) && SameContent(f, f', x) && Labelled(f', x)
    requires sh'[x].(parent := None) == sh[x].(parent := None)
    requires sh[x].level > 0 ==>
               var c := f.refs[x].children.value;
               forall i :: 0 <= i < |c.children| ==>
                 && c.children[i] in sh' && sh'[c.children[i]] == sh[c.children[i]]
                 && c.children[i] in f'.refs && f'.refs[c.children[i]].pageID == f.refs[c.children[i]].pageID
    ensures NodeOK(f', sh', x)
  {
  }

  /** Where the children of a spliced cache lie. */
  lemma SplicePlaces(p: Place, c: Cache, i: nat, left: RefId, right: RefId, s: Key, j: nat)
    requires |c.children| == |c.separators| + 1 && i < |c.children| && j <= |c.children|
    ensures var c' := Splice(c, i, left, right, s);
            && c'.children[j] == (if j < i then c.children[j] else if j == i then left
                                  else if j == i + 1 then right else c.children[j - 1])
            && ChildLo(p, c', j) == (if j <= i then ChildLo(p, c, j) else if j == i + 1 then Some(s)
                                     else ChildLo(p, c, j - 1))
            && ChildHi(p, c', j) == (if j < i then ChildHi(p, c, j) else if j == i then Some(s)
                                     else ChildHi(p, c, j - 1))
  {
    hide Less;
    var ks' := Splice(c, i, left, right, s).separators;
    assert j > 0 ==> ks'[j - 1] == if j - 1 < i then c.separators[j - 1] else if j - 1 == i then s
           else c.separators[j - 2];
    assert j < |ks'| ==> ks'[j] == if j < i then c.separators[j] else if j == i then s else c.separators[j - 1];
  }

  /** Facts about the references a splice of page `r` at child `i` touches. */
  ghost predicate SpliceFacts(f: Forest, sh: Shape, f': Forest, sh': Shape, r: RefId, i: nat, left: RefId, right: RefId,
                              s: Key)
    requires r in f.refs && f.refs[r].children.Some?
    requires var c := f.refs[r].children.value;
             |c.children| == |c.separators| + 1 && i < |c.children| && c.children[i] in sh
  {
    var c := f.refs[r].children.value;
    && left in f'.refs && right in f'.refs
    && left in sh' && sh'[left] == sh[c.children[i]].(hi := Some(s))
    && right in sh' && sh'[right] == sh[c.children[i]].(lo := Some(s))
    && (forall j :: 0 <= j < |c.children| && j != i ==> Kept(f, sh, f', sh', c.children[j]))
  }

  ghost predicate Kept(f: Forest, sh: Shape, f': Forest, sh': Shape, x: RefId) {
    && x in sh && x in sh' && sh'[x] == sh[x]
    && x in f.refs && x in f'.refs && f'.refs[x].pageID == f.refs[x].pageID
  }

  lemma SplicedChildren(f: Forest, sh: Shape, f': Forest, sh': Shape, r: RefId, i: nat, left: RefId, right: RefId,
                        s: Key, j: nat)
    requires r in sh && sh[r].level > 0 && NodeOK(f, sh, r)
    requires i < |f.refs[r].children.value.children| && SpliceFacts(f, sh, f', sh', r, i, left, right, s)
    requires j <= |f.refs[r].children.value.children|
    ensures var c, p := f.refs[r].children.value, sh[r];
            var c' := Splice(c, i, left, right, s);
            && c'.children[j] in sh' && c'.children[j] in f'.refs
            && sh'[c'.children[j]] == Place(ChildLo(p, c', j), ChildHi(p, c', j), p.level - 1, Some(r))
  {
    hide Less, LeafOK;
    SplicePlaces(sh[r], f.refs[r].children.value, i, left, right, s, j);
  }

  lemma SplicedMirror(f: Forest, sh: Shape, f': Forest, sh': Shape, r: RefId, i: nat, left: RefId, right: RefId, s: Key,
                      node: NodePage)
    requires r in sh && sh[r].level > 0 && NodeOK(f, sh, r)
    requires i < |f.refs[r].children.value.children| && SpliceFacts(f, sh, f', sh', r, i, left, right, s)
    requires InsertChild(f.pages[f.refs[r].info.pageID].node, i, s, f'.refs[left].pageID, f'.refs[right].pageID)
             == Ok(node)
    ensures Mirrored(f', Splice(f.refs[r].children.value, i, left, right, s), node)
  {
    hide Less, LeafOK, InsertChild, SeparatorsWithin;
    var c, was := f.refs[r].children.value, f.pages[f.refs[r].info.pageID].node;
    UpdateMirrors(c, IdsOf(f'), was, i, left, right, s);
  }

  /** The parent page and cache after `InsertChild` and `updateChildrenCache` mirror each other and fit the shape. */
  lemma SplicedInner(f: Forest, sh: Shape, f': Forest, sh': Shape, r: RefId, i: nat, left: RefId, right: RefId, s: Key)
    requires r in sh && sh[r].level > 0 && NodeOK(f, sh, r)
    requires r in f'.refs && Labelled(f', r) && !f'.refs[r].info.isLeaf && f'.refs[r].info.pageID in f'.pages
    requires r in sh' && sh'[r].(parent := None) == sh[r].(parent := None)
    requires var c := f.refs[r].children.value;
             && i < |c.children| && f'.refs[r].children == Some(Splice(c, i, left, right, s))
             && Between(sh[c.children[i]], s) && SpliceFacts(f, sh, f', sh', r, i, left, right, s)
    requires f'.pages[f'.refs[r].info.pageID].Node?
    requires InsertChild(f.pages[f.refs[r].info.pageID].node, i, s, f'.refs[left].pageID, f'.refs[right].pageID)
             == Ok(f'.pages[f'.refs[r].info.pageID].node)
    ensures NodeOK(f', sh', r)
  {
    hide Less, LeafOK, InsertChild, Splice, NodeFits;
    var c, p := f.refs[r].children.value, sh[r];
    SpliceInRange(p, c, i, left, right, s);
    InsertChildFits(f.pages[f.refs[r].info.pageID].node, i, s, f'.refs[left].pageID, f'.refs[right].pageID);
    SplicedMirror(f, sh, f', sh', r, i, left, right, s, f'.pages[f'.refs[r].info.pageID].node);
    forall j | 0 <= j < |Splice(c, i, left, right, s).children|
      ensures var c' := Splice(c, i, left, right, s);
              c'.children[j] in sh' && sh'[c'.children[j]]
                == Place(ChildLo(p, c', j), ChildHi(p, c', j), p.level - 1, Some(r))
    {
      SplicedChildren(f, sh, f', sh', r, i, left, right, s, j);
    }
  }

  lemma SpliceInRange(p: Place, c: Cache, i: nat, left: RefId, right: RefId, s: Key)
    requires |c.children| == |c.separators| + 1 && i < |c.children|
    requires SeparatorsWithin(c.separators, p.lo, p.hi)
    requires Between(Place(ChildLo(p, c, i), ChildHi(p, c, i), 0, None), s)
    ensures SeparatorsWithin(Splice(c, i, left, right, s).separators, p.lo, p.hi)
  {
    SpliceSeparators(p, c, i, s);
  }

  /** Scanning the physical page for a child's page ID, or the cache for it, finds the child itself. */
  lemma FindsChild(f: Forest, sh: Shape, root: RefId, r: RefId, i: nat, j: nat)
    requires Inv(f, sh, root) && r in sh && sh[r].level > 0 && NodeOK(f, sh, r)
    requires var c := f.refs[r].children.value;
             && i < |c.children| && j < |c.children|
             && NodeChildren(f.pages[f.refs[r].info.pageID].node)[j] == f.refs[c.children[i]].pageID
    ensures i == j
  {
    hide Less, LeafOK, SeparatorsWithin;
    ChildrenDistinct(f, sh, r);
    var c := f.refs[r].children.value;
    assert c.children[i] in sh && c.children[j] in sh;
  }

  /** No reference is the child of a page twice. */
  lemma ChildrenDistinct(f: Forest, sh: Shape, r: RefId)
    requires r in sh && sh[r].level > 0 && NodeOK(f, sh, r)
    ensures var c := f.refs[r].children.value;
            forall i, j :: 0 <= i < j < |c.children| ==> c.children[i] != c.children[j]
  {
    var c, p := f.refs[r].children.value, sh[r];
    forall i, j | 0 <= i < j < |c.children| ensures c.children[i] != c.children[j] {
      LessIrreflexive(c.separators[j - 1]);
      assert ChildLo(p, c, j) == Some(c.separators[j - 1]);
      if i > 0 {
        assert Less(c.separators[i - 1], c.separators[j - 1]);
      } else if p.lo.Some? {
        assert Less(p.lo.value, c.separators[j - 1]);
      }
    }
  }

  lemma SplitFrame(f: Forest, sh: Shape, root: RefId, f': Forest, s: Split, x: RefId)
    requires SplitOK(f, sh, root, s) && SplitTo(f, f', s) && s.left.id !in sh && s.right.id !in sh
    requires x in sh && x != s.parent && x != s.child
    ensures NodeOK(f', ShapeAfterSplit(sh, s), x)
  {
    var sh' := ShapeAfterSplit(sh, s);
    assert NodeOK(f, sh, x);
    if sh[x].level > 0 {
      var c := f.refs[x].children.value;
      forall i | 0 <= i < |c.children|
        ensures c.children[i] in sh' && sh'[c.children[i]] == sh[c.children[i]]
        ensures c.children[i] in f'.refs && f'.refs[c.children[i]].pageID == f.refs[c.children[i]].pageID
      {}
    }
    NodeFrame(f, sh, f', sh', x);
  }

  /** A split whose halves are well-formed keeps the tree invariant. */
  lemma SplitInv(f: Forest, sh: Shape, root: RefId, f': Forest, s: Split)
    requires SplitOK(f, sh, root, s) && SplitTo(f, f', s) && s.left.id !in sh && s.right.id !in sh
    requires NodeOK(f', ShapeAfterSplit(sh, s), s.left.id) && NodeOK(f', ShapeAfterSplit(sh, s), s.right.id)
    ensures Inv(f', ShapeAfterSplit(sh, s), root)
    ensures ShapeAfterSplit(sh, s)[root] == sh[root]
  {
    var sh' := ShapeAfterSplit(sh, s);
    SplitParent(f, sh, root, f', s);
    forall x | x in sh' ensures NodeOK(f', sh', x) {
      if x in sh && x != s.parent {
        SplitFrame(f, sh, root, f', s, x);
      }
    }
    SplitDistinct(f, sh, root, f', s);
  }

  lemma SplitFacts(f: Forest, sh: Shape, root: RefId, f': Forest, s: Split)
    requires SplitOK(f, sh, root, s) && SplitTo(f, f', s) && s.left.id !in sh && s.right.id !in sh
    ensures SpliceFacts(f, sh, f', ShapeAfterSplit(sh, s), s.parent, s.index, s.left.id, s.right.id, s.splitKey)
  {
    hide Less, LeafOK, InsertChild, Splice, SeparatorsWithin, Mirrored;
    ChildrenDistinct(f, sh, s.parent);
    var c := f.refs[s.parent].children.value;
    forall j | 0 <= j < |c.children| && j != s.index
      ensures Kept(f, sh, f', ShapeAfterSplit(sh, s), c.children[j])
    {
      assert NodeOK(f, sh, c.children[j]);
    }
  }

  lemma SplitParent(f: Forest, sh: Shape, root: RefId, f': Forest, s: Split)
    requires SplitOK(f, sh, root, s) && SplitTo(f, f', s) && s.left.id !in sh && s.right.id !in sh
    ensures NodeOK(f', ShapeAfterSplit(sh, s), s.parent)
  {
    hide Less, LeafOK, InnerOK, InsertChild, Splice;
    SplitFacts(f, sh, root, f', s);
    SplicedInner(f, sh, f', ShapeAfterSplit(sh, s), s.parent, s.index, s.left.id, s.right.id, s.splitKey);
  }

  lemma SplitDistinct(f: Forest, sh: Shape, root: RefId, f': Forest, s: Split)
    requires SplitOK(f, sh, root, s) && SplitTo(f, f', s) && s.left.id !in sh && s.right.id !in sh
    ensures DistinctIds(f', ShapeAfterSplit(sh, s))
  {
    hide Less, LeafOK, InnerOK, InsertChild, Splice;
    var sh' := ShapeAfterSplit(sh, s);
    forall x | x in sh ensures x in f.refs && x in f'.refs && f'.refs[x].pageID == f.refs[x].pageID {
      assert NodeOK(f, sh, x);
    }
  }

  /** Which child of the split parent a key is looked up in. */
  lemma SplitStep(f: Forest, f': Forest, r: RefId, p: Place, i: nat, left: RefId, right: RefId, s: Key, k: Key,
                  level: nat)
    requires r in f.refs && f.refs[r].children.Some? && r in f'.refs && level > 0
    requires !f'.refs[r].info.isLeaf && f'.refs[r].info.pageID in f'.pages
    requires var c := f.refs[r].children.value;
             && |c.children| == |c.separators| + 1 && i < |c.children|
             && f'.refs[r].children == Some(Splice(c, i, left, right, s))
             && SeparatorsWithin(c.separators, p.lo, p.hi)
             && SeparatorsWithin(c.separators[..i] + [s] + c.separators[i..], p.lo, p.hi)
    ensures var c := f.refs[r].children.value;
            var j := CountLeq(c.separators, k);
            Lookup(f', r, k, level)
            == Lookup(f', if j != i then c.children[j] else if Less(k, s) then left else right, k, level - 1)
  {
    SpliceRoutes(p, f.refs[r].children.value, i, s, k);
  }

  /** Below the parent everything but the two halves is looked up as before. */
  lemma SplitLookup(f: Forest, sh: Shape, root: RefId, f': Forest, s: Split, k: Key)
    requires SplitOK(f, sh, root, s) && SplitTo(f, f', s)
    requires CountLeq(f.refs[s.parent].children.value.separators, k) == s.index ==>
               Lookup(f', if Less(k, s.splitKey) then s.left.id else s.right.id, k, sh[s.child].level)
               == Lookup(f, s.child, k, sh[s.child].level)
    ensures Lookup(f', root, k, sh[root].level) == Lookup(f, root, k, sh[root].level)
  {
    hide Less, LeafOK, InnerOK, InsertChild, Splice, CountLeq, Lookup;
    SameAfterSplit(f, sh, root, f', s);
    OKIsLinked(f, sh);
    ParentLookup(f, sh, root, f', s, k);
    Transfer(f, sh, f', s.parent, k, root);
  }

  lemma ParentLookup(f: Forest, sh: Shape, root: RefId, f': Forest, s: Split, k: Key)
    requires SplitOK(f, sh, root, s) && SplitTo(f, f', s)
    requires SameExcept(f, f', sh, {s.parent}) && AllLinked(f, sh)
    requires CountLeq(f.refs[s.parent].children.value.separators, k) == s.index ==>
               Lookup(f', if Less(k, s.splitKey) then s.left.id else s.right.id, k, sh[s.child].level)
               == Lookup(f, s.child, k, sh[s.child].level)
    ensures Lookup(f', s.parent, k, sh[s.parent].level) == Lookup(f, s.parent, k, sh[s.parent].level)
  {
    hide Less, LeafOK, InnerOK, InsertChild, Splice, CountLeq, Lookup;
    assert Linked(f, sh, s.parent);
    var c := f.refs[s.parent].children.value;
    var j := CountLeq(c.separators, k);
    SplitRoutes(f, sh, root, f', s, k);
    NextLookup(f, sh, s.parent, k);
    if j != s.index {
      Transfer(f, sh, f', s.parent, k, c.children[j]);
    }
  }

  lemma SplitRoutes(f: Forest, sh: Shape, root: RefId, f': Forest, s: Split, k: Key)
    requires SplitOK(f, sh, root, s) && SplitTo(f, f', s)
    ensures var c := f.refs[s.parent].children.value;
            var j := CountLeq(c.separators, k);
            Lookup(f', s.parent, k, sh[s.parent].level)
            == Lookup(f', if j != s.index then c.children[j] else if Less(k, s.splitKey) then s.left.id else s.right.id,
                      k, sh[s.parent].level - 1)
  {
    hide Less, LeafOK, InsertChild, Splice, CountLeq, Lookup;
    var c, p := f.refs[s.parent].children.value, sh[s.parent];
    SpliceSeparators(p, c, s.index, s.splitKey);
    SplitStep(f, f', s.parent, p, s.index, s.left.id, s.right.id, s.splitKey, k, p.level);
  }

  lemma SameAfterSplit(f: Forest, sh: Shape, root: RefId, f': Forest, s: Split)
    requires SplitOK(f, sh, root, s) && SplitTo(f, f', s)
    ensures SameExcept(f, f', sh, {s.parent})
  {
    forall x | x in sh && x != s.parent ensures SameContent(f, f', x) {
      assert NodeOK(f, sh, x);
    }
  }
}
