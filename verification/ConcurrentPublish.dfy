/** Publishing a leaf split in the children cache of the parent is the step at which its write happens. */
module ConcurrentPublish {
  import opened Bytes
  import opened Finite
  import opened Pages
  import opened ChildrenCache
  import opened Forest
  import opened ForestSplit
  import opened SplitTheorems
  import opened ConcurrentTree
  import opened PendingSplits
  import opened ConcurrentProof
  import opened ConcurrentSteps

  lemma LoadChildrenOK(s: State, t: Thread)
    requires Consistent(s) && PhaseOf(s, t).InParent?
    ensures PhaseOf(LoadChildrenStep(s, t, PhaseOf(s, t)), t).SawCache?
    ensures Consistent(LoadChildrenStep(s, t, PhaseOf(s, t))) && Unchanged(s, LoadChildrenStep(s, t, PhaseOf(s, t)))
  {
    hide Less, CountLeq, LeafGet, ThreadsOK, LogOK, PhaseOK, Splice, SeparatorsWithin, PageMirrors, RefsOK, PendingOK,
      CacheOK, Position;
    ThreadAt(s, t);
    LoadChildrenPhase(s, t, PhaseOf(s, t));
    PhaseChange(s, t, PhaseOf(LoadChildrenStep(s, t, PhaseOf(s, t)), t));
  }

  lemma LoadChildrenPhase(s: State, t: Thread, p: Phase)
    requires CacheOK(s) && p.InParent? && PhaseOK(s, p)
    ensures PhaseOf(LoadChildrenStep(s, t, p), t).SawCache?
    ensures PhaseOK(s, PhaseOf(LoadChildrenStep(s, t, p), t))
  {
    hide Less, CountLeq, SplitAndSet, SeparatorsWithin, Position;
  }

  /** The cache of the parent shows the halves `l` and `r` in place of child `i`. */
  ghost predicate Published(s: State, s': State, i: nat, pair: Pair) {
    && |s.cache.children| == |s.cache.separators| + 1 && i < |s.cache.children|
    && s'.place == s.place && s'.page == s.page && s'.pageVersion == s.pageVersion
    && s'.cache == Splice(s.cache, i, pair.left, pair.right, pair.h.splitKey) && s'.cacheVersion == s.cacheVersion + 1
    && s'.pending == s.pending - {s.cache.children[i]}
    && s'.refs.Keys == s.refs.Keys + {pair.left, pair.right} && pair.left !in s.refs && pair.right !in s.refs
       && pair.left != pair.right
    && (forall x :: x in s.refs ==> s'.refs[x] == s.refs[x])
    && (forall x :: x in s.refs && x in s.places ==> x in s'.places && s'.places[x] == s.places[x])
    && (forall j :: j in s.infos ==> j in s'.infos && s'.infos[j] == s.infos[j])
    && (forall j :: j in s'.infos ==> j < s'.next) && s.next <= s'.next
    && 0 < pair.left < s.next && 0 < pair.right < s.next
  }

  ghost predicate HasLeaf(s: State, r: RefId, page: LeafPage, at: Place) {
    r in s.refs && s.refs[r] in s.infos && s.infos[s.refs[r]] == Info(page, Normal) && r in s.places
      && s.places[r] == at
  }

  lemma SpliceMembers(c: Cache, i: nat, left: RefId, right: RefId, k: Key)
    requires |c.children| == |c.separators| + 1 && i < |c.children| && Distinct(c.children)
    ensures forall x :: x in Splice(c, i, left, right, k).children
                        <==> x == left || x == right || (x in c.children && x != c.children[i])
  {
    var cs := c.children;
    var ds := Splice(c, i, left, right, k).children;
    forall x ensures x in ds <==> x == left || x == right || (x in cs && x != cs[i]) {
      assert cs == cs[..i] + [cs[i]] + cs[i + 1..];
      assert ds == cs[..i] + [left, right] + cs[i + 1..];
      CutAgrees(cs, i, map[], map[]);
      NotInRest(cs, i);
    }
  }

  lemma NotInRest(cs: seq<RefId>, i: nat)
    requires Distinct(cs) && i < |cs|
    ensures cs[i] !in cs[..i] && cs[i] !in cs[i + 1..]
  {
  }

  lemma PublishedPhase(s: State, s': State, i: nat, pair: Pair, p: Phase)
    requires Published(s, s', i, pair) && PhaseOK(s, p) && PairApart(s, p) && Distinct(s.cache.children)
    requires Holds(p) != Some(s.cache.children[i]) && (Private(p).Some? ==> Disjoint(Private(p).value, pair))
    ensures PhaseOK(s', p) && PairApart(s', p)
  {
    hide Built, InsertChild, Less, Splice, Position;
    SpliceMembers(s.cache, i, pair.left, pair.right, pair.h.splitKey);
    if Private(p).Some? {
      PublishedBuilt(s, s', i, pair, p.op, p.mark, p.pair);
    }
  }

  lemma PublishedBuilt(s: State, s': State, i: nat, pair: Pair, op: Op, mark: InfoId, other: Pair)
    requires Published(s, s', i, pair) && Built(s, op, mark, other) && Disjoint(other, pair)
    ensures Built(s', op, mark, other)
  {
    hide SplitAndSet, Splice;
  }

  lemma PublishedCache(s: State, s': State, i: nat, pair: Pair)
    requires CacheOK(s) && Published(s, s', i, pair)
    requires var at := s.places[s.cache.children[i]];
             && HalvesWithin(pair.h, at.lo, at.hi)
             && HasLeaf(s', pair.left, pair.h.left, at.(hi := Some(pair.h.splitKey)))
             && HasLeaf(s', pair.right, pair.h.right, at.(lo := Some(pair.h.splitKey)))
    ensures CacheOK(s')
  {
    hide Less, Splice, SeparatorsWithin, SortedEntries, LeafFits, EntriesWithin;
    var c, p, k := s.cache, s.place, pair.h.splitKey;
    SpliceSeparators(p, c, i, k);
    assert SeparatorsWithin(s'.cache.separators, p.lo, p.hi) by { SpliceSeps(c, i, pair.left, pair.right, k); }
    forall j | 0 <= j < |s'.cache.children|
      ensures s'.cache.children[j] in s'.refs && s'.cache.children[j] in s'.places
      ensures s'.places[s'.cache.children[j]].lo == ChildLo(p, s'.cache, j)
      ensures s'.places[s'.cache.children[j]].hi == ChildHi(p, s'.cache, j)
    {
      SplicePlaces(p, c, i, pair.left, pair.right, k, j);
    }
  }

  lemma SpliceSeps(c: Cache, i: nat, left: RefId, right: RefId, k: Key)
    requires |c.children| == |c.separators| + 1 && i < |c.children|
    ensures Splice(c, i, left, right, k).separators == c.separators[..i] + [k] + c.separators[i..]
  {
  }

  lemma PublishedRefs(s: State, s': State, i: nat, pair: Pair)
    requires RefsOK(s) && CacheOK(s) && PendingOK(s) && Published(s, s', i, pair)
    requires var leaf := s.cache.children[i];
             && s.refs[leaf] in s.infos && s.infos[s.refs[leaf]].state != Normal
             && HalvesWithin(pair.h, s.places[leaf].lo, s.places[leaf].hi)
             && HasLeaf(s', pair.left, pair.h.left, s.places[leaf].(hi := Some(pair.h.splitKey)))
             && HasLeaf(s', pair.right, pair.h.right, s.places[leaf].(lo := Some(pair.h.splitKey)))
             && forall x :: x in s.pending && x != leaf ==> Disjoint(pair, s.pending[x])
    ensures RefsOK(s') && PendingOK(s')
  {
    hide Less, Splice, SeparatorsWithin, SortedEntries, LeafFits, EntriesWithin;
    CachedDistinct(s);
    SpliceMembers(s.cache, i, pair.left, pair.right, pair.h.splitKey);
    forall r | r in s'.refs ensures RefOK(s', r) {
      if r in s.refs {
        assert RefOK(s, r);
      }
    }
  }

  lemma PublishedMirrors(s: State, s': State, i: nat, pair: Pair)
    requires CacheOK(s) && PendingOK(s) && PageMirrors(s) && Published(s, s', i, pair)
    requires s.cache.children[i] in s.pending && s.pending[s.cache.children[i]] == pair
    ensures |s'.cache.children| == |s'.cache.separators| + 1 && PageMirrors(s')
  {
    hide Less, Splice, SeparatorsWithin, ExpandChildren, ExpandKeys, NodeChildren, NodeKeys;
    CachedDistinct(s);
    PublishExpands(s.cache, s.pending, i);
  }

  /** After publication each key of the split leaf is read from its half, every other key as before. */
  lemma PublishedRead(s: State, s': State, i: nat, pair: Pair, k: Key)
    requires CacheOK(s) && RefsOK(s) && CacheOK(s') && Published(s, s', i, pair)
    requires Known(s', pair.left) && InfoOf(s', pair.left).page == pair.h.left
    requires Known(s', pair.right) && InfoOf(s', pair.right).page == pair.h.right
    ensures Read(s', k) == if Child(s, k) == s.cache.children[i] then LeafGet(HalfFor(pair.h, k).entries, k)
            else Read(s, k)
  {
    hide Less, CountLeq, LeafGet, Splice;
    var c, at := s.cache, s.place;
    SpliceSeps(c, i, pair.left, pair.right, pair.h.splitKey);
    SpliceRoutes(at, c, i, pair.h.splitKey, k);
    var j := CountLeq(c.separators, k);
    var j' := CountLeq(s'.cache.separators, k);
    SplicePlaces(at, c, i, pair.left, pair.right, pair.h.splitKey, j');
    CachedDistinct(s);
    assert RefOK(s, c.children[j]);
    assert j < i ==> c.children[j] != c.children[i];
    assert j > i ==> c.children[i] != c.children[j];
  }

  /** Publishing takes effect as one map update. */
  lemma PublishedReads(s: State, s': State, i: nat, pair: Pair, op: Op)
    requires CacheOK(s) && RefsOK(s) && CacheOK(s') && Published(s, s', i, pair)
    requires Known(s', pair.left) && InfoOf(s', pair.left).page == pair.h.left
    requires Known(s', pair.right) && InfoOf(s', pair.right).page == pair.h.right
    requires var leaf := s.cache.children[i];
             && Aims(s, op, leaf) && Known(s, leaf)
             && LeafGet(HalfFor(pair.h, op.key).entries, op.key) == Some(op.value)
             && forall k :: k != op.key ==>
                LeafGet(HalfFor(pair.h, k).entries, k) == LeafGet(InfoOf(s, leaf).page.entries, k)
    ensures Read(s', op.key) == Some(op.value) && forall k :: k != op.key ==> Read(s', k) == Read(s, k)
  {
    hide Less, CountLeq, LeafGet, Splice, Published, CacheOK, RefsOK, HalfFor;
    assert i < |s.cache.children| by { PublishedIndex(s, s', i, pair); }
    CachedRoutes(s, s.cache.children[i], op.key);
    PublishedRead(s, s', i, pair, op.key);
    forall k | k != op.key ensures Read(s', k) == Read(s, k) {
      PublishedRead(s, s', i, pair, k);
    }
  }

  lemma PublishedIndex(s: State, s': State, i: nat, pair: Pair)
    requires Published(s, s', i, pair)
    ensures i < |s.cache.children|
  {
  }

  lemma SawCacheFacts(s: State, p: Phase)
    requires p.SawCache? && PhaseOK(s, p) && s.cacheVersion == p.seen
    ensures Position(s.cache.children, p.leaf).Some?
    ensures var i := Position(s.cache.children, p.leaf).value;
            && i < |s.cache.children| && i <= |s.cache.separators| && s.cache.children[i] == p.leaf
               && p.leaf in s.places && p.leaf in s.refs
            && p.cache == Splice(s.cache, i, p.pair.left, p.pair.right, p.pair.h.splitKey)
            && Built(s, p.op, p.mark, p.pair)
  {
    hide Less, SplitAndSet, Splice;
  }

  lemma InstallPublishes(s: State, s': State, t: Thread, p: Phase)
    requires CacheOK(s) && RefsOK(s) && p.SawCache? && PhaseOK(s, p) && s.cacheVersion == p.seen
    requires s' == CasChildrenStep(s, t, p)
    ensures var i := Position(s.cache.children, p.leaf).value;
            && i < |s.cache.children| && s.cache.children[i] == p.leaf && p.leaf in s.places && p.leaf in s.refs
            && Published(s, s', i, p.pair)
            && HasLeaf(s', p.pair.left, p.pair.h.left, s.places[p.leaf].(hi := Some(p.pair.h.splitKey)))
            && HasLeaf(s', p.pair.right, p.pair.h.right, s.places[p.leaf].(lo := Some(p.pair.h.splitKey)))
  {
    hide Less, CountLeq, SplitAndSet, Splice, SeparatorsWithin, Position, PhaseOK;
    SawCacheFacts(s, p);
  }

  lemma CasChildrenOK(s: State, t: Thread)
    requires Consistent(s) && PhaseOf(s, t).SawCache?
    ensures var p, s' := PhaseOf(s, t), CasChildrenStep(s, t, PhaseOf(s, t));
            && Consistent(s')
            && if s.cacheVersion == p.seen then TookEffect(s, s', t, p.op) else Unchanged(s, s')
  {
    hide Less, CountLeq, LeafGet, ThreadsOK, LogOK, SplitAndSet, Splice, SeparatorsWithin, PageMirrors, RefsOK,
      PendingOK, CacheOK, Position, Read;
    var p, s' := PhaseOf(s, t), CasChildrenStep(s, t, PhaseOf(s, t));
    ThreadAt(s, t);
    if s.cacheVersion != p.seen {
      PhaseChange(s, t, InParent(p.op, p.leaf, p.mark, p.pair));
    } else {
      InstallOK(s, s', t, p);
      var q := InCache(p.op, p.leaf, p.mark);
      assert s'.commits == s.commits + Once(t, p.op, true) && s'.successes == s.successes + Once(t, p.op, false);
      LogStep(s, s', t, q, p.op, true, false);
      forall u | u != t ensures PhaseOK(s', PhaseOf(s, u)) && PairApart(s', PhaseOf(s, u)) && Apart(PhaseOf(s, u), q) {
        ThreadAt(s, u);
        CachedDistinct(s);
        InstallPublishes(s, s', t, p);
        PublishedPhase(s, s', Position(s.cache.children, p.leaf).value, p.pair, PhaseOf(s, u));
      }
      ThreadsStep(s, s', t, q);
    }
  }

  lemma InstallOK(s: State, s': State, t: Thread, p: Phase)
    requires CacheOK(s) && RefsOK(s) && PendingOK(s) && PageMirrors(s)
    requires p.SawCache? && PhaseOK(s, p) && PairApart(s, p) && s.cacheVersion == p.seen
    requires s' == CasChildrenStep(s, t, p)
    ensures CacheOK(s') && RefsOK(s') && PendingOK(s') && PageMirrors(s')
    ensures TookEffect(s, s', t, p.op) && PhaseOK(s', InCache(p.op, p.leaf, p.mark))
  {
    hide Less, CountLeq, LeafGet, SplitAndSet, Splice, CacheOK, PendingOK, PageMirrors, Position, HalfFor, Read,
      HalvesWithin;
    InstallPublishes(s, s', t, p);
    var i := Position(s.cache.children, p.leaf).value;
    assert RefOK(s, p.leaf);
    var at := s.places[p.leaf];
    SplitAndSetIsUpdate(s.infos[p.mark].page, p.op.key, p.op.value, at.lo, at.hi);
    PublishedCache(s, s', i, p.pair);
    PublishedRefs(s, s', i, p.pair);
    PublishedMirrors(s, s', i, p.pair);
    PublishedReads(s, s', i, p.pair, p.op);
    CachedDistinct(s);
    SpliceMembers(s.cache, i, p.pair.left, p.pair.right, p.pair.h.splitKey);
  }
}
