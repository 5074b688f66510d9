/** Every interleaving of the machine in ConcurrentTree keeps its invariant and loses no write. */
module ConcurrentProof {
  import opened Bytes
  import opened Pages
  import opened ChildrenCache
  import opened Forest
  import opened ForestSplit
  import opened SplitTheorems
  import opened ConcurrentTree
  import opened PendingSplits

  // ---------------------------------------------------------------- invariant

  ghost predicate CacheOK(s: State) {
    && |s.cache.children| == |s.cache.separators| + 1
    && SeparatorsWithin(s.cache.separators, s.place.lo, s.place.hi)
    && (forall i :: 0 <= i < |s.cache.children| ==>
          && s.cache.children[i] in s.refs && s.cache.children[i] in s.places
          && s.places[s.cache.children[i]].lo == ChildLo(s.place, s.cache, i)
          && s.places[s.cache.children[i]].hi == ChildHi(s.place, s.cache, i))
  }

  ghost predicate PageOK(p: LeafPage, at: Place) {
    SortedEntries(p.entries) && LeafFits(p) && EntriesWithin(p.entries, at.lo, at.hi)
  }

  /** A reference in its normal state is in the cache; one that left the cache is being or has been redirected. */
  ghost predicate RefOK(s: State, r: RefId) {
    && r in s.refs && 0 < r < s.next && r in s.places && s.refs[r] in s.infos
    && PageOK(s.infos[s.refs[r]].page, s.places[r])
    && (s.infos[s.refs[r]].state == Normal ==> r in s.cache.children)
  }

  ghost predicate RefsOK(s: State) {
    && (forall r {:trigger RefOK(s, r)} :: r in s.refs ==> RefOK(s, r))
    && (forall i :: i in s.infos ==> i < s.next)
  }

  ghost predicate Aims(s: State, op: Op, leaf: RefId) {
    leaf in s.refs && leaf in s.places && InRange(op.key, s.places[leaf].lo, s.places[leaf].hi)
  }

  ghost predicate OldInfo(s: State, info: InfoId) {
    info in s.infos && s.infos[info].state == Normal
  }

  ghost predicate Owns(s: State, leaf: RefId, mark: InfoId) {
    leaf in s.refs && s.refs[leaf] == mark && mark in s.infos && s.infos[mark].state == Splitting
  }

  /** The splitter holds the leaf and has published nothing yet. */
  ghost predicate Held(s: State, op: Op, leaf: RefId, info: InfoId, mark: InfoId) {
    && Aims(s, op, leaf) && OldInfo(s, info) && Owns(s, leaf, mark) && s.infos[info].page == s.infos[mark].page
    && leaf in s.cache.children && leaf !in s.pending
  }

  ghost predicate Built(s: State, op: Op, mark: InfoId, pair: Pair) {
    && mark in s.infos && SplitAndSet(s.infos[mark].page, op.key, op.value) == Ok(pair.h)
    && 0 < pair.left < s.next && 0 < pair.right < s.next && pair.left != pair.right
    && pair.left !in s.refs && pair.right !in s.refs
  }

  /** The splitter's halves are in the parent page and not yet in the cache. */
  ghost predicate Queued(s: State, op: Op, leaf: RefId, mark: InfoId, pair: Pair) {
    && Aims(s, op, leaf) && Owns(s, leaf, mark) && Built(s, op, mark, pair)
    && leaf in s.cache.children && leaf in s.pending && s.pending[leaf] == pair
  }

  ghost predicate PageFresh(s: State, leaf: RefId, pair: Pair, seen: nat, page: NodePage) {
    && seen <= s.pageVersion
    && (seen == s.pageVersion ==>
          var i := Position(NodeChildren(s.page), leaf);
          i.Some? && InsertChild(s.page, i.value, pair.h.splitKey, pair.left, pair.right) == Ok(page))
  }

  ghost predicate CacheFresh(s: State, leaf: RefId, pair: Pair, seen: nat, cache: Cache) {
    && seen <= s.cacheVersion
    && (seen == s.cacheVersion ==>
          var i := Position(s.cache.children, leaf);
          && i.Some? && i.value <= |s.cache.separators|
          && cache == Splice(s.cache, i.value, pair.left, pair.right, pair.h.splitKey))
  }

  ghost predicate PhaseOK(s: State, p: Phase) {
    match p
    case Idle => true
    case Searching(op) => InRange(op.key, s.place.lo, s.place.hi)
    case Renavigate(op) => InRange(op.key, s.place.lo, s.place.hi)
    case Found(op, leaf) => Target(s, op, leaf)
    case Located(op, leaf) => Target(s, op, leaf)
    case Loaded(op, leaf, info) => Target(s, op, leaf) && OldInfo(s, info)
    case Ready(op, leaf, info) => Target(s, op, leaf) && OldInfo(s, info)
    case Marked(op, leaf, info, mark) => Target(s, op, leaf) && Held(s, op, leaf, info, mark)
    case RollBack(op, leaf, info, mark, _) => Target(s, op, leaf) && Held(s, op, leaf, info, mark)
    case Halved(op, leaf, info, mark, pair) => Target(s, op, leaf) && Held(s, op, leaf, info, mark)
      && Built(s, op, mark, pair)
    case SawParent(op, leaf, info, mark, pair, seen, page) =>
      Target(s, op, leaf) && Held(s, op, leaf, info, mark) && Built(s, op, mark, pair)
        && PageFresh(s, leaf, pair, seen, page)
    case InParent(op, leaf, mark, pair) => Target(s, op, leaf) && Queued(s, op, leaf, mark, pair)
    case SawCache(op, leaf, mark, pair, seen, cache) =>
      Target(s, op, leaf) && Queued(s, op, leaf, mark, pair) && CacheFresh(s, leaf, pair, seen, cache)
    case InCache(op, leaf, mark) => Target(s, op, leaf) && Owns(s, leaf, mark) && leaf !in s.cache.children
      && leaf !in s.pending
    case Done(_) => true
    case Failed(_) => true
  }

  ghost predicate Target(s: State, op: Op, leaf: RefId) {
    InRange(op.key, s.place.lo, s.place.hi) && Aims(s, op, leaf)
  }

  /** The leaf a thread has marked, if any. */
  ghost function Holds(p: Phase): Option<RefId> {
    match p
    case Marked(_, leaf, _, _) => Some(leaf)
    case RollBack(_, leaf, _, _, _) => Some(leaf)
    case Halved(_, leaf, _, _, _) => Some(leaf)
    case SawParent(_, leaf, _, _, _, _, _) => Some(leaf)
    case InParent(_, leaf, _, _) => Some(leaf)
    case SawCache(_, leaf, _, _, _, _) => Some(leaf)
    case InCache(_, leaf, _) => Some(leaf)
    case _ => None
  }

  /** The references a thread has made and not yet published, if any. */
  ghost function Private(p: Phase): Option<Pair> {
    match p
    case Halved(_, _, _, _, pair) => Some(pair)
    case SawParent(_, _, _, _, pair, _, _) => Some(pair)
    case InParent(_, _, _, pair) => Some(pair)
    case SawCache(_, _, _, pair, _, _) => Some(pair)
    case _ => None
  }

  ghost predicate Disjoint(a: Pair, b: Pair) {
    a.left != b.left && a.left != b.right && a.right != b.left && a.right != b.right
  }

  ghost predicate Apart(p: Phase, q: Phase) {
    && (Holds(p).Some? && Holds(q).Some? ==> Holds(p).value != Holds(q).value)
    && (Private(p).Some? && Private(q).Some? ==> Disjoint(Private(p).value, Private(q).value))
  }

  ghost predicate ThreadsOK(s: State) {
    && (forall t {:trigger PhaseOf(s, t)} :: PhaseOK(s, PhaseOf(s, t)) && PairApart(s, PhaseOf(s, t)))
    && (forall t, u {:trigger PhaseOf(s, t), PhaseOf(s, u)} :: t != u ==> Apart(PhaseOf(s, t), PhaseOf(s, u)))
  }

  /** A private pair shares no reference with the splits of other leaves waiting in the parent page. */
  ghost predicate PairApart(s: State, p: Phase) {
    Private(p).Some? && Holds(p).Some? ==>
      forall x :: x in s.pending && x != Holds(p).value ==> Disjoint(Private(p).value, s.pending[x])
  }

  ghost predicate PendingOK(s: State) {
    forall x :: x in s.pending ==>
      && s.pending[x].left !in s.refs && s.pending[x].right !in s.refs
      && s.pending[x].left < s.next && s.pending[x].right < s.next
      && s.pending[x].left !in s.pending && s.pending[x].right !in s.pending
      && x in s.refs && s.refs[x] in s.infos && s.infos[s.refs[x]].state == Splitting
  }

  // ---------------------------------------------------------------- the page mirrors the cache

  /** The physical page is always the cache with the splits in flight carried out. */
  ghost predicate PageMirrors(s: State)
    requires |s.cache.children| == |s.cache.separators| + 1
  {
    && NodeChildren(s.page) == ExpandChildren(s.cache.children, s.pending)
    && NodeKeys(s.page) == ExpandKeys(s.cache.children, s.cache.separators, s.pending)
  }

  // ---------------------------------------------------------------- histories

  /** The operations of one thread in a history. */
  ghost function OpsOf(log: seq<Event>, t: Thread): seq<Op> {
    if log == [] then []
    else OpsOf(log[..|log| - 1], t) + (if log[|log| - 1].thread == t then [log[|log| - 1].op] else [])
  }

  /**
   Every write a thread was told succeeded took effect exactly once, in the same order; at most one
   more is under way.
   */
  ghost predicate LogOK(s: State) {
    forall t {:trigger PhaseOf(s, t)} ::
      OpsOf(s.commits, t) == OpsOf(s.successes, t) + (if PhaseOf(s, t).InCache? then [PhaseOf(s, t).op] else [])
  }

  ghost predicate Consistent(s: State) {
    CacheOK(s) && RefsOK(s) && ThreadsOK(s) && PendingOK(s) && PageMirrors(s) && LogOK(s)
  }

  // ---------------------------------------------------------------- reading

  /** The child whose range holds a key is the one the separators route it to. */
  lemma RangeRoutes(s: State, i: nat, k: Key)
    requires CacheOK(s) && i < |s.cache.children|
    requires InRange(k, ChildLo(s.place, s.cache, i), ChildHi(s.place, s.cache, i))
    ensures CountLeq(s.cache.separators, k) == i && Child(s, k) == s.cache.children[i]
  {
    hide Less, CountLeq;
    var ks := s.cache.separators;
    forall j | 0 <= j < i ensures !Less(k, ks[j]) {
      if Less(k, ks[j]) && j < i - 1 {
        LessTransitive(k, ks[j], ks[i - 1]);
      }
    }
    forall j | i <= j < |ks| ensures Less(k, ks[j]) {
      if i < j {
        LessTransitive(k, ks[i], ks[j]);
      }
    }
    CutIsCount(ks, k, i);
  }

  /** Descending for a key of the parent finds a leaf whose range holds the key. */
  lemma ChildAims(s: State, op: Op)
    requires CacheOK(s) && InRange(op.key, s.place.lo, s.place.hi)
    ensures Target(s, op, Child(s, op.key)) && Child(s, op.key) in s.cache.children
  {
    hide Less, CountLeq;
    ChildHoldsKey(s.place, s.cache, op.key);
  }

  lemma CachedDistinct(s: State)
    requires CacheOK(s)
    ensures forall i, j :: 0 <= i < j < |s.cache.children| ==> s.cache.children[i] != s.cache.children[j]
  {
    hide Less;
    var c, p := s.cache, s.place;
    forall i, j | 0 <= i < j < |c.children| ensures c.children[i] != c.children[j] {
      LessIrreflexive(c.separators[j - 1]);
      assert ChildLo(p, c, j) == Some(c.separators[j - 1]);
      if i > 0 {
        assert Less(c.separators[i - 1], c.separators[j - 1]);
      } else if p.lo.Some? {
        assert Less(p.lo.value, c.separators[j - 1]);
      }
    }
  }

  // ---------------------------------------------------------------- steps that only change a phase

  ghost predicate SameHistory(p: Phase, q: Phase) {
    p.InCache? == q.InCache? && (p.InCache? ==> p.op == q.op)
  }

  /** Moving one thread to a phase that claims no more than it has keeps the invariant. */
  lemma PhaseChange(s: State, t: Thread, q: Phase)
    requires Consistent(s) && PhaseOK(s, q)
    requires Holds(q).None? || Holds(q) == Holds(PhaseOf(s, t))
    requires Private(q).None? || Private(q) == Private(PhaseOf(s, t))
    requires SameHistory(PhaseOf(s, t), q)
    ensures Consistent(To(s, t, q)) && forall k :: Read(To(s, t, q), k) == Read(s, k)
  {
    hide PhaseOK, RefsOK, PendingOK, LeafGet, CountLeq, Less, OpsOf;
    var s' := To(s, t, q);
    SameData(s, s');
    forall u ensures PhaseOK(s', PhaseOf(s', u)) && PairApart(s', PhaseOf(s', u)) {
      PhaseKept(s, s', PhaseOf(s, u));
      PhaseKept(s, s', q);
      assert PairApart(s, PhaseOf(s, u)) && PairApart(s, PhaseOf(s, t));
    }
    forall u, v | u != v ensures Apart(PhaseOf(s', u), PhaseOf(s', v)) {
      assert Apart(PhaseOf(s, u), PhaseOf(s, v));
    }
    forall u ensures OpsOf(s'.commits, u)
      == OpsOf(s'.successes, u) + (if PhaseOf(s', u).InCache? then [PhaseOf(s', u).op] else []) {
      assert OpsOf(s.commits, u) == OpsOf(s.successes, u) + (if PhaseOf(s, u).InCache? then [PhaseOf(s, u).op] else []);
    }
  }

  ghost predicate Same(s: State, s': State) {
    s'.(threads := map[], commits := [], successes := []) == s.(threads := map[], commits := [], successes := [])
  }

  lemma SameData(s: State, s': State)
    requires Same(s, s') && CacheOK(s) && RefsOK(s) && PendingOK(s) && |s.cache.children| == |s.cache.separators| + 1
             && PageMirrors(s)
    ensures CacheOK(s') && RefsOK(s') && PendingOK(s') && |s'.cache.children| == |s'.cache.separators| + 1
            && PageMirrors(s')
    ensures forall k :: Read(s', k) == Read(s, k)
  {
    hide LeafGet, CountLeq, Less, PageOK;
    forall r | r in s'.refs ensures RefOK(s', r) {
      assert RefOK(s, r);
    }
  }

  lemma PhaseKept(s: State, s': State, p: Phase)
    requires Same(s, s') && PhaseOK(s, p)
    ensures PhaseOK(s', p)
  {
    hide SplitAndSet, InsertChild, Less;
  }
}
