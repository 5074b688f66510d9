/**
 The page references and pages a tree is made of, what it means for them to form a B+tree,
 and what the structural changes of operations.go do to the map the tree stands for.

 Every live page reference has a ghost place: its key range, its level above the leaves and its
 parent. The tree invariant is local to each reference and its children.
 */
module Forest {
  import opened Bytes
  import opened Pages
  import opened ChildrenCache

  datatype NodeState = Normal | Root | Redirect | Splitting

  datatype PageInfo = PageInfo(pageID: PageID, version: nat, isLeaf: bool, state: NodeState, redirect: bool)

  datatype PageRef = PageRef(pageID: PageID, info: PageInfo, children: Option<Cache>)

  datatype Page = Leaf(leaf: LeafPage) | Node(node: NodePage)

  datatype Forest = Forest(refs: map<RefId, PageRef>, pages: map<PageID, Page>)

  datatype Place = Place(lo: Option<Key>, hi: Option<Key>, level: nat, parent: Option<RefId>)

  type Shape = map<RefId, Place>

  /** The immutable page IDs of the references. */
  ghost function IdsOf(f: Forest): (ids: PageIds)
    ensures forall r :: r in ids <==> r in f.refs
    ensures forall r :: r in f.refs ==> ids[r] == f.refs[r].pageID
  {
    map r | r in f.refs :: f.refs[r].pageID
  }

  /** The cache of a reference shows the same separators and children as the physical page. */
  ghost predicate Mirrored(f: Forest, c: Cache, node: NodePage) {
    Mirrors(c, IdsOf(f), node)
  }

  ghost function ChildLo(p: Place, c: Cache, i: nat): Option<Key>
    requires i <= |c.separators|
  {
    if i == 0 then p.lo else Some(c.separators[i - 1])
  }

  ghost function ChildHi(p: Place, c: Cache, i: nat): Option<Key>
    requires i <= |c.separators|
  {
    if i == |c.separators| then p.hi else Some(c.separators[i])
  }

  /** Separators are ordered and lie strictly inside the range of their page. */
  ghost predicate SeparatorsWithin(seps: seq<Key>, lo: Option<Key>, hi: Option<Key>) {
    && Sorted(seps)
    && (forall i :: 0 <= i < |seps| && lo.Some? ==> Less(lo.value, seps[i]))
    && (forall i :: 0 <= i < |seps| && hi.Some? ==> Less(seps[i], hi.value))
  }

  ghost predicate LeafOK(f: Forest, p: Place, r: RefId)
    requires r in f.refs
  {
    var info := f.refs[r].info;
    && info.isLeaf && info.pageID in f.pages && f.pages[info.pageID].Leaf?
    && var leaf := f.pages[info.pageID].leaf;
    && SortedEntries(leaf.entries) && LeafFits(leaf) && EntriesWithin(leaf.entries, p.lo, p.hi)
  }

  ghost predicate InnerOK(f: Forest, sh: Shape, p: Place, r: RefId)
    requires r in f.refs && p.level > 0
  {
    var info := f.refs[r].info;
    && !info.isLeaf && info.pageID in f.pages && f.pages[info.pageID].Node?
    && f.refs[r].children.Some?
    && var c := f.refs[r].children.value;
    && Mirrored(f, c, f.pages[info.pageID].node) && NodeFits(f.pages[info.pageID].node)
    && SeparatorsWithin(c.separators, p.lo, p.hi)
    && forall i :: 0 <= i < |c.children| ==>
         && c.children[i] in sh
         && sh[c.children[i]] == Place(ChildLo(p, c, i), ChildHi(p, c, i), p.level - 1, Some(r))
  }

  ghost predicate NodeOK(f: Forest, sh: Shape, r: RefId)
    requires r in sh
  {
    && r in f.refs
    && !f.refs[r].info.redirect && f.refs[r].info.state != Redirect
    && if sh[r].level == 0 then LeafOK(f, sh[r], r) else InnerOK(f, sh, sh[r], r)
  }

  ghost predicate AllOK(f: Forest, sh: Shape) {
    forall r {:trigger NodeOK(f, sh, r)} :: r in sh ==> NodeOK(f, sh, r)
  }

  /** Page IDs held by live references are not reused. */
  ghost predicate DistinctIds(f: Forest, sh: Shape) {
    forall r, q :: r in sh && q in sh && r in f.refs && q in f.refs && f.refs[r].pageID == f.refs[q].pageID ==> r == q
  }

  /** The tree invariant: ordered separators, key-range containment, equal leaf depth, cache mirrors page. */
  ghost predicate Inv(f: Forest, sh: Shape, root: RefId) {
    && root in sh && sh[root].lo == None && sh[root].hi == None && sh[root].parent == None
    && AllOK(f, sh)
    && DistinctIds(f, sh)
  }

  /** Descent by separators, then leaf search: the map read through the children caches. */
  ghost function Lookup(f: Forest, r: RefId, key: Key, level: nat): Option<Value>
    decreases level
  {
    if r !in f.refs || f.refs[r].info.pageID !in f.pages then None
    else if f.refs[r].info.isLeaf then
      var page := f.pages[f.refs[r].info.pageID];
      if page.Leaf? then LeafGet(page.leaf.entries, key) else None
    else if level == 0 || f.refs[r].children.None? then None
    else
      var c := f.refs[r].children.value;
      var i := CountLeq(c.separators, key);
      if i >= |c.children| then None else Lookup(f, c.children[i], key, level - 1)
  }

  /** Same children and same page content; only the label of the page info may differ. */
  ghost predicate SameContent(f: Forest, f': Forest, r: RefId) {
    && r in f.refs && r in f'.refs
    && f'.refs[r].pageID == f.refs[r].pageID
    && f'.refs[r].children == f.refs[r].children
    && f'.refs[r].info.isLeaf == f.refs[r].info.isLeaf
    && f'.refs[r].info.pageID == f.refs[r].info.pageID
    && f.refs[r].info.pageID in f.pages && f.refs[r].info.pageID in f'.pages
    && f'.pages[f.refs[r].info.pageID] == f.pages[f.refs[r].info.pageID]
  }

  ghost predicate SameExcept(f: Forest, f': Forest, sh: Shape, changed: set<RefId>) {
    forall x {:trigger SameContent(f, f', x)} :: x in sh && x !in changed ==> SameContent(f, f', x)
  }

  ghost predicate Labelled(f: Forest, r: RefId) {
    r in f.refs && !f.refs[r].info.redirect && f.refs[r].info.state != Redirect
  }

  ghost predicate MapSame(f: Forest, level: nat, f': Forest, level': nat, root: RefId) {
    forall k :: Lookup(f', root, k, level') == Lookup(f, root, k, level)
  }

  ghost predicate MapUpdated(f: Forest, level: nat, f': Forest, level': nat, root: RefId, key: Key, value: Value) {
    && Lookup(f', root, key, level') == Some(value)
    && forall k :: k != key ==> Lookup(f', root, k, level') == Lookup(f, root, k, level)
  }

  // ---------------------------------------------------------------- descent

  /** The separators route a key to the child whose range holds it. */
  lemma ChildHoldsKey(p: Place, c: Cache, key: Key)
    requires SeparatorsWithin(c.separators, p.lo, p.hi) && InRange(key, p.lo, p.hi)
    ensures var i := CountLeq(c.separators, key); InRange(key, ChildLo(p, c, i), ChildHi(p, c, i))
  {
    CountLeqCuts(c.separators, key);
  }

  /** The part of the invariant a descent relies on. */
  ghost predicate Linked(f: Forest, sh: Shape, r: RefId)
    requires r in sh
  {
    && r in f.refs && f.refs[r].info.pageID in f.pages
    && f.refs[r].info.isLeaf == (sh[r].level == 0)
    && (sh[r].level > 0 ==>
          && f.refs[r].children.Some?
          && var c := f.refs[r].children.value;
          && |c.children| == |c.separators| + 1
          && forall i :: 0 <= i < |c.children| ==> c.children[i] in sh && sh[c.children[i]].level == sh[r].level - 1)
  }

  ghost predicate AllLinked(f: Forest, sh: Shape) {
    forall r {:trigger Linked(f, sh, r)} :: r in sh ==> Linked(f, sh, r)
  }

  lemma OKIsLinked(f: Forest, sh: Shape)
    requires AllOK(f, sh)
    ensures AllLinked(f, sh)
  {
    forall r | r in sh ensures Linked(f, sh, r) {
      assert NodeOK(f, sh, r);
    }
  }

  /** The child a descent for `key` takes next. */
  ghost function Next(f: Forest, sh: Shape, r: RefId, key: Key): (child: RefId)
    requires r in sh && Linked(f, sh, r) && sh[r].level > 0
    ensures child in sh && sh[child].level == sh[r].level - 1
  {
    f.refs[r].children.value.children[CountLeq(f.refs[r].children.value.separators, key)]
  }

  lemma NextLookup(f: Forest, sh: Shape, r: RefId, key: Key)
    requires r in sh && Linked(f, sh, r) && sh[r].level > 0
    ensures Lookup(f, r, key, sh[r].level) == Lookup(f, Next(f, sh, r, key), key, sh[r].level - 1)
  {
  }

  /** Lookups above and beside a changed reference are unchanged if the lookup at it is. */
  lemma {:induction false} Transfer(f: Forest, sh: Shape, f': Forest, changed: RefId, key: Key, r: RefId)
    requires AllLinked(f, sh) && changed in sh && r in sh
    requires SameExcept(f, f', sh, {changed})
    requires sh[r].level >= sh[changed].level ==>
               Lookup(f', changed, key, sh[changed].level) == Lookup(f, changed, key, sh[changed].level)
    ensures Lookup(f', r, key, sh[r].level) == Lookup(f, r, key, sh[r].level)
    decreases sh[r].level
  {
    if r != changed {
      assert Linked(f, sh, r) && SameContent(f, f', r);
      if sh[r].level > 0 {
        Transfer(f, sh, f', changed, key, Next(f, sh, r, key));
      }
    }
  }

  datatype PathEntry = PathEntry(ref: RefId, index: int)

  /** `path` is what `searchPath` returns for `key`: root to leaf, every range holding the key. */
  ghost predicate IsPath(f: Forest, sh: Shape, root: RefId, key: Key, path: seq<PathEntry>) {
    && root in sh && |path| == sh[root].level + 1 && path[0].ref == root
    && (forall i :: 0 <= i < |path| ==> OnPath(sh, key, path, i))
    && (forall i :: 0 <= i < |path| - 1 ==> StepsTo(f, key, path[i], path[i + 1].ref))
  }

  ghost predicate OnPath(sh: Shape, key: Key, path: seq<PathEntry>, i: nat)
    requires i < |path|
  {
    path[i].ref in sh && sh[path[i].ref].level == |path| - 1 - i
    && InRange(key, sh[path[i].ref].lo, sh[path[i].ref].hi)
  }

  ghost predicate StepsTo(f: Forest, key: Key, e: PathEntry, child: RefId) {
    && e.ref in f.refs && f.refs[e.ref].children.Some?
    && var c := f.refs[e.ref].children.value;
    && e.index == CountLeq(c.separators, key) && e.index < |c.children|
    && c.children[e.index] == child
  }

  /** The changed map is read along the old path down to the first changed reference. */
  lemma {:induction false} PathLookup(f: Forest, sh: Shape, f': Forest, root: RefId, key: Key, path: seq<PathEntry>,
                                      i: nat, j: nat)
    requires AllLinked(f, sh) && IsPath(f, sh, root, key, path)
    requires i <= j < |path|
    requires forall m {:trigger path[m]} :: i <= m < j ==> SameContent(f, f', path[m].ref)
    ensures Lookup(f', path[i].ref, key, |path| - 1 - i) == Lookup(f', path[j].ref, key, |path| - 1 - j)
    decreases j - i
  {
    if i < j {
      assert OnPath(sh, key, path, i) && StepsTo(f, key, path[i], path[i + 1].ref);
      assert SameContent(f, f', path[i].ref) && Linked(f, sh, path[i].ref);
      PathLookup(f, sh, f', root, key, path, i + 1, j);
    }
  }

  // ---------------------------------------------------------------- relabelling a reference

  /** Changing only the state of a page info changes neither the tree nor the map. */
  lemma Relabel(f: Forest, sh: Shape, root: RefId, f': Forest)
    requires Inv(f, sh, root)
    requires SameExcept(f, f', sh, {}) && forall x {:trigger Labelled(f', x)} :: x in sh ==> Labelled(f', x)
    ensures Inv(f', sh, root)
    ensures MapSame(f, sh[root].level, f', sh[root].level, root)
  {
    forall x | x in sh ensures NodeOK(f', sh, x) {
      assert NodeOK(f, sh, x) && SameContent(f, f', x) && Labelled(f', x);
      if sh[x].level > 0 {
        var c := f.refs[x].children.value;
        forall i | 0 <= i < |c.children| ensures c.children[i] in f'.refs
          && f'.refs[c.children[i]].pageID == f.refs[c.children[i]].pageID {
          assert SameContent(f, f', c.children[i]);
        }
      }
    }
    forall x | x in sh ensures SameContent(f, f', x) {}
    OKIsLinked(f, sh);
    forall k ensures Lookup(f', root, k, sh[root].level) == Lookup(f, root, k, sh[root].level) {
      SameLookup(f, sh, f', k, root);
    }
  }

  lemma {:induction false} SameLookup(f: Forest, sh: Shape, f': Forest, key: Key, r: RefId)
    requires AllLinked(f, sh) && SameExcept(f, f', sh, {}) && r in sh
    ensures Lookup(f', r, key, sh[r].level) == Lookup(f, r, key, sh[r].level)
    decreases sh[r].level
  {
    assert Linked(f, sh, r) && SameContent(f, f', r);
    if sh[r].level > 0 {
      SameLookup(f, sh, f', key, Next(f, sh, r, key));
    }
  }

  // ---------------------------------------------------------------- writing one leaf

  /** A copy-on-write leaf update is a map update. */
  lemma LeafWritten(f: Forest, sh: Shape, root: RefId, path: seq<PathEntry>, key: Key, value: Value,
                    page: LeafPage, info: PageInfo)
    requires Inv(f, sh, root) && IsPath(f, sh, root, key, path)
    requires info.pageID !in f.pages && info.isLeaf && !info.redirect && info.state != Redirect
    requires var leaf := path[|path| - 1].ref;
             leaf in sh && NodeOK(f, sh, leaf) && sh[leaf].level == 0 &&
             LeafUpdated(f.pages[f.refs[leaf].info.pageID].leaf, page, key, value, sh[leaf].lo, sh[leaf].hi)
    ensures var leaf := path[|path| - 1].ref;
            var f' := Forest(f.refs[leaf := f.refs[leaf].(info := info)], f.pages[info.pageID := Leaf(page)]);
            Inv(f', sh, root) && MapUpdated(f, sh[root].level, f', sh[root].level, root, key, value)
  {
    var n := |path| - 1;
    var leaf := path[n].ref;
    assert OnPath(sh, key, path, n);
    var f' := Forest(f.refs[leaf := f.refs[leaf].(info := info)], f.pages[info.pageID := Leaf(page)]);
    forall x | x in sh ensures NodeOK(f', sh, x) && (x != leaf ==> SameContent(f, f', x)) {
      assert NodeOK(f, sh, x);
      if sh[x].level > 0 {
        var c := f.refs[x].children.value;
      }
    }
    forall m | 0 <= m < n ensures SameContent(f, f', path[m].ref) {
      assert OnPath(sh, key, path, m);
    }
    OKIsLinked(f, sh);
    PathLookup(f, sh, f', root, key, path, 0, n);
    forall k | k != key ensures Lookup(f', root, k, sh[root].level) == Lookup(f, root, k, sh[root].level) {
      Transfer(f, sh, f', leaf, k, root);
    }
  }
}
