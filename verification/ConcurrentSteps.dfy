/** Each atomic step of the concurrent tree keeps the invariant and changes the map by at most its own write. */
module ConcurrentSteps {
  import opened Bytes
  import opened Pages
  import opened ChildrenCache
  import opened Forest
  import opened ForestSplit
  import opened SplitTheorems
  import opened ConcurrentTree
  import opened PendingSplits
  import opened ConcurrentProof

  /** The step is invisible. */
  ghost predicate Unchanged(s: State, s': State) {
    s'.commits == s.commits && forall k :: Read(s', k) == Read(s, k)
  }

  /** The step is the one at which the write of thread `t` happens. */
  ghost predicate TookEffect(s: State, s': State, t: Thread, op: Op) {
    && s'.commits == s.commits + [Event(t, op)]
    && Read(s', op.key) == Some(op.value)
    && forall k :: k != op.key ==> Read(s', k) == Read(s, k)
  }

  // ---------------------------------------------------------------- assembling the invariant

  lemma ThreadsStep(s: State, s': State, t: Thread, q: Phase)
    requires ThreadsOK(s) && s'.threads == s.threads[t := q] && PhaseOK(s', q) && PairApart(s', q)
    requires forall u {:trigger PhaseOf(s, u)} :: u != t ==>
               PhaseOK(s', PhaseOf(s, u)) && PairApart(s', PhaseOf(s, u)) && Apart(PhaseOf(s, u), q)
    ensures ThreadsOK(s')
  {
    hide PhaseOK, PairApart;
    forall u ensures PhaseOK(s', PhaseOf(s', u)) && PairApart(s', PhaseOf(s', u)) {
      assert u != t ==> PhaseOf(s', u) == PhaseOf(s, u);
    }
    forall u, v | u != v ensures Apart(PhaseOf(s', u), PhaseOf(s', v)) {
      assert u != t ==> PhaseOf(s', u) == PhaseOf(s, u);
      assert v != t ==> PhaseOf(s', v) == PhaseOf(s, v);
      assert Apart(PhaseOf(s, u), PhaseOf(s, v));
    }
  }

  ghost function UnderWay(p: Phase): seq<Op> {
    if p.InCache? then [p.op] else []
  }

  ghost function Once(t: Thread, op: Op, b: bool): seq<Event> {
    if b then [Event(t, op)] else []
  }

  lemma OpsOfOnce(log: seq<Event>, t: Thread, op: Op, b: bool, u: Thread)
    ensures OpsOf(log + Once(t, op, b), u) == OpsOf(log, u) + if b && u == t then [op] else []
  {
    if b {
      assert (log + [Event(t, op)])[..|log|] == log;
    } else {
      assert log + [] == log;
    }
  }

  lemma LogStep(s: State, s': State, t: Thread, q: Phase, op: Op, c: bool, d: bool)
    requires LogOK(s) && s'.threads == s.threads[t := q]
    requires s'.commits == s.commits + Once(t, op, c) && s'.successes == s.successes + Once(t, op, d)
    requires UnderWay(PhaseOf(s, t)) + (if c then [op] else []) == (if d then [op] else []) + UnderWay(q)
    ensures LogOK(s')
  {
    hide OpsOf;
    forall u ensures OpsOf(s'.commits, u)
      == OpsOf(s'.successes, u) + (if PhaseOf(s', u).InCache? then [PhaseOf(s', u).op] else []) {
      OpsOfOnce(s.commits, t, op, c, u);
      OpsOfOnce(s.successes, t, op, d, u);
      assert OpsOf(s.commits, u) == OpsOf(s.successes, u) + UnderWay(PhaseOf(s, u));
      if u != t {
        assert PhaseOf(s', u) == PhaseOf(s, u);
      } else {
        var was := OpsOf(s.successes, t);
        assert OpsOf(s'.commits, t) == was + (UnderWay(PhaseOf(s, t)) + (if c then [op] else []));
        assert was + ((if d then [op] else []) + UnderWay(q)) == OpsOf(s'.successes, t) + UnderWay(q);
      }
    }
  }

  // ---------------------------------------------------------------- replacing the page info of one leaf

  ghost predicate LeafChanged(s: State, s': State, leaf: RefId) {
    && s'.place == s.place && s'.page == s.page && s'.pageVersion == s.pageVersion && s'.cache == s.cache
    && s'.cacheVersion == s.cacheVersion && s'.places == s.places && s'.pending == s.pending
    && leaf in s.refs && s'.refs.Keys == s.refs.Keys
       && (forall x :: x in s.refs && x != leaf ==> s'.refs[x] == s.refs[x])
    && (forall i :: i in s.infos ==> i in s'.infos && s'.infos[i] == s.infos[i])
    && (forall i :: i in s'.infos ==> i < s'.next) && s.next <= s'.next
  }

  /** A thread that does not hold the leaf does not notice. */
  lemma LeafChangedPhase(s: State, s': State, leaf: RefId, p: Phase)
    requires LeafChanged(s, s', leaf) && PhaseOK(s, p) && PairApart(s, p) && Holds(p) != Some(leaf)
    ensures PhaseOK(s', p) && PairApart(s', p)
  {
    hide SplitAndSet, InsertChild, Less, Splice, Position;
  }

  lemma LeafChangedData(s: State, s': State, leaf: RefId)
    requires LeafChanged(s, s', leaf) && CacheOK(s) && RefsOK(s) && PendingOK(s) && PageMirrors(s)
    requires RefOK(s', leaf) && leaf !in s.pending
    ensures CacheOK(s') && RefsOK(s') && PendingOK(s') && PageMirrors(s')
    ensures forall k :: Child(s, k) != leaf ==> Read(s', k) == Read(s, k)
  {
    hide LeafGet, CountLeq, Less, PageOK, ExpandChildren, ExpandKeys, SeparatorsWithin;
    forall r | r in s'.refs ensures RefOK(s', r) {
      assert RefOK(s, r);
    }
    forall k | Child(s, k) != leaf ensures Read(s', k) == Read(s, k) {
      assert Child(s', k) == Child(s, k);
      assert Child(s, k) in s.refs ==> RefOK(s, Child(s, k));
    }
  }

  /** No thread holds a leaf in its normal state. */
  lemma NormalIsFree(s: State, leaf: RefId, p: Phase)
    requires PhaseOK(s, p) && leaf in s.refs && s.refs[leaf] in s.infos && s.infos[s.refs[leaf]].state == Normal
    ensures Holds(p) != Some(leaf)
  {
    hide SplitAndSet, InsertChild, Less, Splice, Position;
  }

  lemma LeafChangedThreads(s: State, s': State, leaf: RefId, t: Thread, q: Phase)
    requires ThreadsOK(s) && LeafChanged(s, s', leaf) && s'.threads == s.threads[t := q] && PhaseOK(s', q)
    requires Private(q).None? && (Holds(q).None? || Holds(q) == Some(leaf))
    requires (leaf in s.refs && s.refs[leaf] in s.infos && s.infos[s.refs[leaf]].state == Normal)
             || Holds(PhaseOf(s, t)) == Some(leaf)
    ensures ThreadsOK(s')
  {
    hide PhaseOK, LeafChanged;
    forall u | u != t ensures PhaseOK(s', PhaseOf(s, u)) && PairApart(s', PhaseOf(s, u)) && Apart(PhaseOf(s, u), q) {
      assert PhaseOK(s, PhaseOf(s, u)) && PairApart(s, PhaseOf(s, u)) && Apart(PhaseOf(s, u), PhaseOf(s, t));
      if leaf in s.refs && s.refs[leaf] in s.infos && s.infos[s.refs[leaf]].state == Normal {
        NormalIsFree(s, leaf, PhaseOf(s, u));
      }
      LeafChangedPhase(s, s', leaf, PhaseOf(s, u));
    }
    ThreadsStep(s, s', t, q);
  }

  /** The compare-and-swap of the non-split path is the step at which the write happens. */
  lemma WriteStep(s: State, t: Thread)
    requires Consistent(s) && PhaseOf(s, t).Ready? && Known(s, PhaseOf(s, t).leaf)
    requires s.refs[PhaseOf(s, t).leaf] == PhaseOf(s, t).info
    requires LeafSet(InfoOf(s, PhaseOf(s, t).leaf).page, PhaseOf(s, t).op.key, PhaseOf(s, t).op.value).Ok?
    ensures var p := PhaseOf(s, t);
            var page := LeafSet(InfoOf(s, p.leaf).page, p.op.key, p.op.value).value;
            var s' := Succeed(Commit(To(Swap(s, p.leaf, Info(page, Normal)), t, Done(p.op)), t, p.op), t, p.op);
            Consistent(s') && TookEffect(s, s', t, p.op)
  {
    hide Less, CountLeq, LeafGet, LeafSet, ThreadsOK, OpsOf, ExpandChildren, ExpandKeys, SeparatorsWithin;
    var p := PhaseOf(s, t);
    var was := InfoOf(s, p.leaf).page;
    var page := LeafSet(was, p.op.key, p.op.value).value;
    var s' := Succeed(Commit(To(Swap(s, p.leaf, Info(page, Normal)), t, Done(p.op)), t, p.op), t, p.op);
    assert PhaseOK(s, p) by { ThreadAt(s, t); }
    assert RefOK(s, p.leaf);
    var at := s.places[p.leaf];
    LeafSetIsUpdate(was, p.op.key, p.op.value, at.lo, at.hi);
    LeafChangedData(s, s', p.leaf);
    LeafChangedThreads(s, s', p.leaf, t, Done(p.op));
    LogStep(s, s', t, Done(p.op), p.op, true, true);
    CachedRoutes(s, p.leaf, p.op.key);
    WriteReads(s, s', p.leaf, was, page, p.op);
  }

  lemma ThreadAt(s: State, t: Thread)
    requires ThreadsOK(s)
    ensures PhaseOK(s, PhaseOf(s, t)) && PairApart(s, PhaseOf(s, t))
    ensures forall u :: u != t ==> Apart(PhaseOf(s, u), PhaseOf(s, t))
  {
  }

  /** A cached leaf whose range holds the key is the one the key is routed to. */
  lemma CachedRoutes(s: State, leaf: RefId, k: Key)
    requires CacheOK(s) && leaf in s.cache.children && leaf in s.places
             && InRange(k, s.places[leaf].lo, s.places[leaf].hi)
    ensures Child(s, k) == leaf
  {
    hide Less, CountLeq, SeparatorsWithin;
    var i :| 0 <= i < |s.cache.children| && s.cache.children[i] == leaf;
    RangeRoutes(s, i, k);
  }

  lemma WriteReads(s: State, s': State, leaf: RefId, was: LeafPage, page: LeafPage, op: Op)
    requires s'.cache == s.cache && Known(s, leaf) && Known(s', leaf) && InfoOf(s, leaf).page == was
             && InfoOf(s', leaf).page == page
    requires Child(s, op.key) == leaf && LeafGet(page.entries, op.key) == Some(op.value)
    requires forall k :: k != op.key ==> LeafGet(page.entries, k) == LeafGet(was.entries, k)
    requires forall k :: Child(s, k) != leaf ==> Read(s', k) == Read(s, k)
    ensures Read(s', op.key) == Some(op.value) && forall k :: k != op.key ==> Read(s', k) == Read(s, k)
  {
    hide CountLeq, LeafGet;
  }

  // ---------------------------------------------------------------- steps that relabel a leaf

  /** Marking, redirecting and rolling back put a record with the same page in place. */
  lemma RelabelStep(s: State, s': State, leaf: RefId, t: Thread, q: Phase, op: Op, d: bool)
    requires Consistent(s) && LeafChanged(s, s', leaf) && s'.threads == s.threads[t := q] && PhaseOK(s', q)
    requires s'.commits == s.commits && s'.successes == s.successes + Once(t, op, d)
    requires UnderWay(PhaseOf(s, t)) == (if d then [op] else []) + UnderWay(q)
    requires Private(q).None? && (Holds(q).None? || Holds(q) == Some(leaf))
    requires Known(s, leaf) && Known(s', leaf) && InfoOf(s', leaf).page == InfoOf(s, leaf).page && leaf !in s.pending
    requires InfoOf(s, leaf).state == Normal || Holds(PhaseOf(s, t)) == Some(leaf)
    requires InfoOf(s', leaf).state == Normal ==> leaf in s.cache.children
    ensures Consistent(s') && Unchanged(s, s')
  {
    hide Less, CountLeq, LeafGet, ThreadsOK, LogOK, PhaseOK, ExpandChildren, ExpandKeys, SeparatorsWithin, PageOK;
    assert RefOK(s, leaf);
    LeafChangedData(s, s', leaf);
    LeafChangedThreads(s, s', leaf, t, q);
    assert s'.commits == s.commits + Once(t, op, false);
    LogStep(s, s', t, q, op, false, d);
  }

  lemma MarkStep(s: State, t: Thread)
    requires Consistent(s) && PhaseOf(s, t).Ready? && Known(s, PhaseOf(s, t).leaf)
    requires s.refs[PhaseOf(s, t).leaf] == PhaseOf(s, t).info
    ensures var p := PhaseOf(s, t);
            var s' := To(Swap(s, p.leaf, Info(InfoOf(s, p.leaf).page, Splitting)), t,
                         Marked(p.op, p.leaf, p.info, s.next));
            Consistent(s') && Unchanged(s, s')
  {
    hide Less, CountLeq, LeafGet, ThreadsOK, LogOK, ExpandChildren, ExpandKeys, SeparatorsWithin, PageOK;
    var p := PhaseOf(s, t);
    var q := Marked(p.op, p.leaf, p.info, s.next);
    var s' := To(Swap(s, p.leaf, Info(InfoOf(s, p.leaf).page, Splitting)), t, q);
    ThreadAt(s, t);
    assert RefOK(s, p.leaf);
    RelabelStep(s, s', p.leaf, t, q, p.op, false);
  }

  /** The redirect always finds the splitter's own mark: nobody else replaces a record marked as splitting. */
  lemma RedirectStep(s: State, t: Thread)
    requires Consistent(s) && PhaseOf(s, t).InCache?
    ensures var p := PhaseOf(s, t);
            && Known(s, p.leaf) && s.refs[p.leaf] == p.mark
            && var s' := Succeed(To(Swap(s, p.leaf, Info(InfoOf(s, p.leaf).page, Redirect)), t, Done(p.op)), t, p.op);
            Consistent(s') && Unchanged(s, s')
  {
    hide Less, CountLeq, LeafGet, ThreadsOK, LogOK, ExpandChildren, ExpandKeys, SeparatorsWithin, PageOK;
    var p := PhaseOf(s, t);
    ThreadAt(s, t);
    var s' := Succeed(To(Swap(s, p.leaf, Info(InfoOf(s, p.leaf).page, Redirect)), t, Done(p.op)), t, p.op);
    RelabelStep(s, s', p.leaf, t, Done(p.op), p.op, true);
  }

  /** The rollback always finds the splitter's own mark, and puts the old record back. */
  lemma RollBackStep(s: State, t: Thread)
    requires Consistent(s) && PhaseOf(s, t).RollBack?
    ensures var p := PhaseOf(s, t);
            && Known(s, p.leaf) && s.refs[p.leaf] == p.mark
            && var s' := To(s, t, if p.retry then Searching(p.op) else Failed(p.op)).(refs := s.refs[p.leaf := p.info]);
            Consistent(s') && Unchanged(s, s')
  {
    hide Less, CountLeq, LeafGet, ThreadsOK, LogOK, ExpandChildren, ExpandKeys, SeparatorsWithin, PageOK;
    var p := PhaseOf(s, t);
    ThreadAt(s, t);
    var q := if p.retry then Searching(p.op) else Failed(p.op);
    var s' := To(s, t, q).(refs := s.refs[p.leaf := p.info]);
    assert s'.successes == s.successes + Once(t, p.op, false);
    RelabelStep(s, s', p.leaf, t, q, p.op, false);
  }

  // ---------------------------------------------------------------- building the halves

  lemma BuildStepOK(s: State, t: Thread)
    requires Consistent(s) && PhaseOf(s, t).Marked? && PhaseOf(s, t).mark in s.infos
    ensures Consistent(BuildStep(s, t, PhaseOf(s, t))) && Unchanged(s, BuildStep(s, t, PhaseOf(s, t)))
  {
    hide Less, CountLeq, LeafGet, ThreadsOK, LogOK, SplitAndSet, ExpandChildren, ExpandKeys, SeparatorsWithin, PageOK;
    var p := PhaseOf(s, t);
    ThreadAt(s, t);
    var h := SplitAndSet(s.infos[p.mark].page, p.op.key, p.op.value);
    if h.Err? {
      PhaseChange(s, t, RollBack(p.op, p.leaf, p.info, p.mark, false));
    } else {
      var q := Halved(p.op, p.leaf, p.info, p.mark, Pair(h.value, s.next, s.next + 1));
      var s' := BuildStep(s, t, p);
      GrownData(s, s');
      assert s.next in s.refs ==> RefOK(s, s.next);
      assert s.next + 1 in s.refs ==> RefOK(s, s.next + 1);
      assert s'.commits == s.commits + Once(t, p.op, false) && s'.successes == s.successes + Once(t, p.op, false);
      LogStep(s, s', t, q, p.op, false, false);
      forall u | u != t ensures PhaseOK(s', PhaseOf(s, u)) && PairApart(s', PhaseOf(s, u)) && Apart(PhaseOf(s, u), q) {
        ThreadAt(s, u);
        GrownPhase(s, s', PhaseOf(s, u));
      }
      ThreadsStep(s, s', t, q);
    }
  }

  /** Only new identities were taken. */
  ghost predicate Grown(s: State, s': State) {
    && s'.place == s.place && s'.page == s.page && s'.pageVersion == s.pageVersion && s'.cache == s.cache
    && s'.cacheVersion == s.cacheVersion && s'.places == s.places && s'.pending == s.pending
    && s'.refs == s.refs && s'.infos == s.infos && s.next <= s'.next
  }

  lemma GrownData(s: State, s': State)
    requires Grown(s, s') && CacheOK(s) && RefsOK(s) && PendingOK(s) && PageMirrors(s)
    ensures CacheOK(s') && RefsOK(s') && PendingOK(s') && PageMirrors(s')
    ensures forall k :: Read(s', k) == Read(s, k)
  {
    hide LeafGet, CountLeq, Less, PageOK, ExpandChildren, ExpandKeys, SeparatorsWithin;
    forall r | r in s'.refs ensures RefOK(s', r) {
      assert RefOK(s, r);
    }
  }

  lemma GrownPhase(s: State, s': State, p: Phase)
    requires Grown(s, s') && PhaseOK(s, p) && PairApart(s, p)
    ensures PhaseOK(s', p) && PairApart(s', p)
    ensures Private(p).Some? ==> Private(p).value.left < s.next && Private(p).value.right < s.next
  {
    hide SplitAndSet, InsertChild, Less, Splice, Position;
  }

  // ---------------------------------------------------------------- the parent page

  /** A leaf with no pending split is found in the parent page: the fallback position is never used. */
  lemma LeafInParent(s: State, leaf: RefId)
    requires CacheOK(s) && PendingOK(s) && PageMirrors(s)
    requires leaf in s.cache.children && leaf in s.refs && leaf !in s.pending
    ensures var cs := s.cache.children;
            var i := Position(cs, leaf);
            && i.Some?
            && Position(NodeChildren(s.page), leaf) == Some(|ExpandChildren(cs[..i.value], s.pending)|)
  {
    hide Less, CountLeq, ExpandChildren, ExpandKeys, NodeChildren, NodeKeys, SeparatorsWithin;
    var cs := s.cache.children;
    var i := Position(cs, leaf).value;
    var j := |ExpandChildren(cs[..i], s.pending)|;
    CachedDistinct(s);
    InsertExpands(cs, s.cache.separators, s.pending, i, AnyPair());
    NotExpanded(cs[..i], s.pending, leaf);
    ChildrenCut(cs, s.pending, i);
    var ec := NodeChildren(s.page);
    assert ec[..j] == ExpandChildren(cs[..i], s.pending) && ec[j] == leaf;
    FirstPosition(ec, leaf, j);
  }

  ghost function AnyPair(): Pair {
    Pair(LeafHalves(EMPTY_LEAF, EMPTY_LEAF, []), 0, 0)
  }

  lemma FirstPosition(cs: seq<nat>, x: nat, j: nat)
    requires j < |cs| && cs[j] == x && x !in cs[..j]
    ensures Position(cs, x) == Some(j)
  {
    var i := Position(cs, x).value;
    assert i < j <==> cs[i] in cs[..j];
  }

  lemma LoadParentOK(s: State, t: Thread)
    requires Consistent(s) && PhaseOf(s, t).Halved?
    ensures Consistent(LoadParentStep(s, t, PhaseOf(s, t))) && Unchanged(s, LoadParentStep(s, t, PhaseOf(s, t)))
  {
    hide Less, CountLeq, LeafGet, ThreadsOK, LogOK, PhaseOK, InsertChild, SeparatorsWithin, PageMirrors, RefsOK,
      PendingOK, CacheOK, Position;
    ThreadAt(s, t);
    LoadParentPhase(s, t, PhaseOf(s, t));
    PhaseChange(s, t, PhaseOf(LoadParentStep(s, t, PhaseOf(s, t)), t));
  }

  lemma LoadParentPhase(s: State, t: Thread, p: Phase)
    requires CacheOK(s) && PendingOK(s) && PageMirrors(s) && p.Halved? && PhaseOK(s, p)
    ensures PhaseOK(s, PhaseOf(LoadParentStep(s, t, p), t))
  {
    hide Less, CountLeq, SplitAndSet, InsertChild, ExpandChildren, ExpandKeys, SeparatorsWithin, CacheOK, PendingOK,
      PageMirrors, Position;
    LeafInParent(s, p.leaf);
  }

  /** Replacing the parent page makes the split pending. */
  lemma CasParentOK(s: State, t: Thread)
    requires Consistent(s) && PhaseOf(s, t).SawParent?
    ensures Consistent(CasParentStep(s, t, PhaseOf(s, t))) && Unchanged(s, CasParentStep(s, t, PhaseOf(s, t)))
  {
    hide Less, CountLeq, LeafGet, ThreadsOK, LogOK, SplitAndSet, InsertChild, CacheOK, RefsOK, PendingOK, PageMirrors,
      Position, Read;
    var p := PhaseOf(s, t);
    ThreadAt(s, t);
    if s.pageVersion != p.seen {
      PhaseChange(s, t, Halved(p.op, p.leaf, p.info, p.mark, p.pair));
    } else {
      var s', q := CasParentStep(s, t, p), InParent(p.op, p.leaf, p.mark, p.pair);
      ParentMirrors(s, s', p.leaf, p.pair);
      ParentData(s, s', p.leaf, p.pair);
      assert s'.commits == s.commits + Once(t, p.op, false) && s'.successes == s.successes + Once(t, p.op, false);
      LogStep(s, s', t, q, p.op, false, false);
      forall u | u != t ensures PhaseOK(s', PhaseOf(s, u)) && PairApart(s', PhaseOf(s, u)) && Apart(PhaseOf(s, u), q) {
        ThreadAt(s, u);
        ParentPhase(s, s', PhaseOf(s, u), p.leaf, p.pair);
      }
      ThreadsStep(s, s', t, q);
    }
  }

  ghost predicate ParentChanged(s: State, s': State, leaf: RefId, pair: Pair) {
    && s'.place == s.place && s'.pageVersion == s.pageVersion + 1 && s'.cache == s.cache
    && s'.cacheVersion == s.cacheVersion && s'.places == s.places && s'.pending == s.pending[leaf := pair]
    && s'.refs == s.refs && s'.infos == s.infos && s.next == s'.next
  }

  lemma ParentData(s: State, s': State, leaf: RefId, pair: Pair)
    requires ParentChanged(s, s', leaf, pair) && CacheOK(s) && RefsOK(s) && PendingOK(s)
    requires pair.left !in s.refs && pair.right !in s.refs && pair.left < s.next && pair.right < s.next
    requires leaf in s.refs && s.refs[leaf] in s.infos && s.infos[s.refs[leaf]].state == Splitting
    ensures CacheOK(s') && RefsOK(s') && PendingOK(s') && forall k :: Read(s', k) == Read(s, k)
  {
    hide Less, CountLeq, LeafGet, SeparatorsWithin, PageOK;
    forall r | r in s'.refs ensures RefOK(s', r) {
      assert RefOK(s, r);
    }
  }

  lemma ParentPhase(s: State, s': State, p: Phase, leaf: RefId, pair: Pair)
    requires ParentChanged(s, s', leaf, pair) && PhaseOK(s, p) && PairApart(s, p)
    requires Holds(p) != Some(leaf) && (Private(p).Some? ==> Disjoint(Private(p).value, pair))
    ensures PhaseOK(s', p) && PairApart(s', p)
  {
    hide SplitAndSet, InsertChild, Less, Splice, Position;
  }

  lemma ParentMirrors(s: State, s': State, leaf: RefId, pair: Pair)
    requires ParentChanged(s, s', leaf, pair)
    requires CacheOK(s) && PendingOK(s) && PageMirrors(s) && leaf in s.cache.children && leaf in s.refs
             && leaf !in s.pending
    requires Position(NodeChildren(s.page), leaf).Some?
    requires InsertChild(s.page, Position(NodeChildren(s.page), leaf).value, pair.h.splitKey, pair.left, pair.right)
             == Ok(s'.page)
    ensures PageMirrors(s')
  {
    hide Less, CountLeq, InsertChild, ExpandChildren, ExpandKeys, SeparatorsWithin;
    LeafInParent(s, leaf);
    var i := Position(s.cache.children, leaf).value;
    CachedDistinct(s);
    InsertExpands(s.cache.children, s.cache.separators, s.pending, i, pair);
    InsertChildSplices(s.page, |ExpandChildren(s.cache.children[..i], s.pending)|, pair.h.splitKey, pair.left,
                       pair.right);
  }
}
