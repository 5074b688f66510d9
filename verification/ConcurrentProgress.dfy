/**
 Writes come to an end: a thread that runs alone finishes its write, with success exactly when the leaf and
 the parent page have room, and a leaf that is not in its normal state is held by a thread that can finish.
 */
module ConcurrentProgress {
  import opened Bytes
  import opened Finite
  import opened Pages
  import opened ChildrenCache
  import opened Forest
  import opened SplitTheorems
  import opened ConcurrentTree
  import opened ConcurrentProof
  import opened ConcurrentSteps
  import opened ConcurrentPublish
  import opened ConcurrentRuns

  // ---------------------------------------------------------------- one thread alone

  /** Thread `t` takes these steps and no other thread runs. */
  function Solo(s: State, t: Thread, actions: seq<Action>): State
    decreases |actions|
  {
    if actions == [] then s else Solo(Do(s, t, actions[0]), t, actions[1..])
  }

  lemma {:induction false} SoloAppend(s: State, t: Thread, a: seq<Action>, b: seq<Action>)
    ensures Solo(s, t, a + b) == Solo(Solo(s, t, a), t, b)
    decreases |a|
  {
    hide Do;
    if a == [] {
      assert a + b == b;
    } else {
      SoloAppend(Do(s, t, a[0]), t, a[1..], b);
      assert (a + b)[1..] == a[1..] + b;
    }
  }

  lemma SoloFirst(s: State, t: Thread, a: Action, rest: seq<Action>)
    ensures Solo(s, t, [a] + rest) == Solo(Do(s, t, a), t, rest)
  {
    hide Do;
    assert ([a] + rest)[1..] == rest;
  }

  ghost function StepsOf(t: Thread, actions: seq<Action>): seq<Step> {
    seq(|actions|, i requires 0 <= i < |actions| => Step(t, actions[i]))
  }

  /** A thread alone is one of the runs. */
  lemma {:induction false} SoloIsRun(s: State, t: Thread, actions: seq<Action>)
    ensures Solo(s, t, actions) == Run(s, StepsOf(t, actions))
    decreases |actions|
  {
    hide Do;
    if actions != [] {
      var n := |actions| - 1;
      SoloIsRun(s, t, actions[..n]);
      SoloAppend(s, t, actions[..n], [actions[n]]);
      assert actions == actions[..n] + [actions[n]];
      assert StepsOf(t, actions)[..n] == StepsOf(t, actions[..n]);
      assert [actions[n]][1..] == [];
    }
  }

  ghost predicate AtRest(p: Phase) {
    p.Idle? || p.Done? || p.Failed?
  }

  /** The other threads are where they were, and so is the range of the parent. */
  ghost predicate OthersStay(s: State, s': State, t: Thread) {
    s'.place == s.place && forall u :: u != t ==> PhaseOf(s', u) == PhaseOf(s, u)
  }

  // ---------------------------------------------------------------- up to the write

  const DESCEND := [LoadCache, CheckChild, LoadInfo, LoadAgain]

  lemma SameChild(s: State, s': State, key: Key)
    requires s'.cache == s.cache
    ensures Child(s', key) == Child(s, key)
  {
  }

  /** Alone, a thread whose leaf is in its normal state comes to the point where it can write. */
  lemma Descends(s: State, t: Thread, op: Op)
    requires AtRest(PhaseOf(s, t)) && InRange(op.key, s.place.lo, s.place.hi)
    requires Known(s, Child(s, op.key)) && InfoOf(s, Child(s, op.key)).state == Normal
    ensures var leaf := Child(s, op.key);
            Solo(s, t, [Begin(op)] + DESCEND) == To(s, t, Ready(op, leaf, s.refs[leaf]))
  {
    hide Child, Do, Solo;
    var leaf := Child(s, op.key);
    SoloFirst(s, t, Begin(op), DESCEND);
    DescentSteps(s, t, op);
    LoadSteps(s, t, op, leaf);
    SoloFour(To(s, t, Searching(op)), t, LoadCache, CheckChild, LoadInfo, LoadAgain);
  }

  lemma SoloFour(s: State, t: Thread, a: Action, b: Action, c: Action, d: Action)
    ensures Solo(s, t, [a, b, c, d]) == Do(Do(Do(Do(s, t, a), t, b), t, c), t, d)
  {
    hide Do;
    assert [a, b, c, d][1..] == [b, c, d] && [b, c, d][1..] == [c, d] && [c, d][1..] == [d] && [d][1..] == [];
    assert Solo(s, t, [a, b, c, d]) == Solo(Do(s, t, a), t, [b, c, d]);
    assert Solo(Do(s, t, a), t, [b, c, d]) == Solo(Do(Do(s, t, a), t, b), t, [c, d]);
    var m := Do(Do(s, t, a), t, b);
    assert Solo(m, t, [c, d]) == Solo(Do(m, t, c), t, [d]);
    assert Solo(Do(m, t, c), t, [d]) == Solo(Do(Do(m, t, c), t, d), t, []);
  }

  lemma DescentSteps(s: State, t: Thread, op: Op)
    requires InRange(op.key, s.place.lo, s.place.hi)
    requires Known(s, Child(s, op.key)) && InfoOf(s, Child(s, op.key)).state == Normal
    ensures var leaf := Child(s, op.key);
            && (AtRest(PhaseOf(s, t)) ==> Do(s, t, Begin(op)) == To(s, t, Searching(op)))
            && Do(To(s, t, Searching(op)), t, LoadCache) == To(s, t, Found(op, leaf))
            && Do(To(s, t, Found(op, leaf)), t, CheckChild) == To(s, t, Located(op, leaf))
  {
    hide Child, Less;
    SameChild(s, To(s, t, Searching(op)), op.key);
  }

  lemma LoadSteps(s: State, t: Thread, op: Op, leaf: RefId)
    requires Known(s, leaf) && InfoOf(s, leaf).state == Normal
    ensures Do(To(s, t, Located(op, leaf)), t, LoadInfo) == To(s, t, Loaded(op, leaf, s.refs[leaf]))
    ensures Do(To(s, t, Loaded(op, leaf, s.refs[leaf])), t, LoadAgain) == To(s, t, Ready(op, leaf, s.refs[leaf]))
  {
  }

  // ---------------------------------------------------------------- what a thread that holds a leaf does alone

  /** The write has taken effect. */
  ghost predicate Took(p: Phase) {
    p.InCache? || p.Done?
  }

  /** From `s` to `s'` thread `t` got on with `op`; its write took effect if it now has and had not before. */
  ghost predicate Tracked(s: State, s': State, t: Thread, op: Op) {
    var p, q := PhaseOf(s, t), PhaseOf(s', t);
    && Consistent(s') && OthersStay(s, s', t) && !q.Idle? && q.op == op
    && (Took(p) ==> Took(q)) && (p.Done? ==> q.Done?)
    && (if !Took(p) && Took(q) then TookEffect(s, s', t, op) else Unchanged(s, s'))
    && s'.successes == s.successes + Once(t, op, q.Done? && !p.Done?)
  }

  lemma TrackedOn(s: State, m: State, s': State, t: Thread, op: Op)
    requires Tracked(s, m, t, op) && Tracked(m, s', t, op)
    ensures Tracked(s, s', t, op)
  {
    hide Consistent, Read;
    assert s.successes + [] == s.successes && m.successes + [] == m.successes;
  }

  lemma TrackedEnds(s: State, s': State, t: Thread, op: Op)
    requires Tracked(s, s', t, op)
    ensures Consistent(s')
  {
  }

  lemma TrackedSelf(s: State, t: Thread)
    requires Consistent(s) && !PhaseOf(s, t).Idle?
    ensures Tracked(s, s, t, PhaseOf(s, t).op)
  {
    hide Consistent, Read;
  }

  /** From the marked leaf: the halves are built, or the leaf cannot be split and the write fails. */
  ghost predicate Halves(s: State, s': State, p: Phase, q: Phase)
    requires p.Marked? && p.mark in s.infos
  {
    var h := SplitAndSet(s.infos[p.mark].page, p.op.key, p.op.value);
    s'.page == s.page && if h.Ok? then q.Halved? && q.pair.h == h.value else q.RollBack? && !q.retry
  }

  lemma AloneBuild(s: State, t: Thread)
    requires Consistent(s) && Holds(PhaseOf(s, t)).Some?
    ensures var p, s' := PhaseOf(s, t), Do(s, t, BuildHalves);
            var q := PhaseOf(s', t);
            && Tracked(s, s', t, p.op) && Holds(q) == Holds(p) && !q.Marked?
            && (p.Marked? ==> p.mark in s.infos && Halves(s, s', p, q))
  {
    hide Consistent, Read, SplitAndSet;
    var p := PhaseOf(s, t);
    if p.Marked? {
      HoldsFacts(s, t);
      BuildStepOK(s, t);
    } else {
      TrackedSelf(s, t);
    }
  }

  /** A thread that holds a leaf finds its own mark behind it. */
  lemma HoldsFacts(s: State, t: Thread)
    requires Consistent(s) && Holds(PhaseOf(s, t)).Some?
    ensures var p := PhaseOf(s, t);
            && Known(s, p.leaf) && s.refs[p.leaf] == p.mark && p.mark in s.infos && PhaseOK(s, p)
  {
    hide CacheOK, RefsOK, PendingOK, PageMirrors, LogOK, SplitAndSet, Less;
    ThreadAt(s, t);
  }

  /** The parent page has room for one more separator. */
  predicate ParentRoom(s: State, k: Key) {
    NodeUsed(s.page) + ENTRY_SIZE + |k| <= PAGE_SIZE
  }

  lemma AloneParent(s: State, t: Thread)
    requires Consistent(s) && PhaseOf(s, t).Halved?
    ensures var p, s' := PhaseOf(s, t), Do(Do(s, t, LoadParent), t, CasParent);
            var q := PhaseOf(s', t);
            && Tracked(s, s', t, p.op)
            && if ParentRoom(s, p.pair.h.splitKey) then q == InParent(p.op, p.leaf, p.mark, p.pair)
               else q == RollBack(p.op, p.leaf, p.info, p.mark, false)
  {
    hide Consistent, Read, InsertChild, Tracked, ParentRoom;
    var p, m := PhaseOf(s, t), Do(s, t, LoadParent);
    AloneLoadParent(s, t);
    if PhaseOf(m, t).SawParent? {
      TrackedEnds(s, m, t, p.op);
      AloneCasParent(m, t);
      TrackedOn(s, m, Do(m, t, CasParent), t, p.op);
    }
  }

  lemma AloneLoadParent(s: State, t: Thread)
    requires Consistent(s) && PhaseOf(s, t).Halved?
    ensures var p, s' := PhaseOf(s, t), Do(s, t, LoadParent);
            var q := PhaseOf(s', t);
            && Tracked(s, s', t, p.op)
            && if ParentRoom(s, p.pair.h.splitKey) then
                 q.SawParent? && q == SawParent(p.op, p.leaf, p.info, p.mark, p.pair, s'.pageVersion, q.page)
               else q == RollBack(p.op, p.leaf, p.info, p.mark, false)
  {
    hide Consistent, Unchanged, InsertChild, ParentRoom, Position, NodeChildren, LoadParentStep;
    LoadParentOK(s, t);
    LoadParentEnds(s, t);
    assert s.successes + [] == s.successes;
  }

  lemma LoadParentEnds(s: State, t: Thread)
    requires Consistent(s) && PhaseOf(s, t).Halved?
    ensures var p, s' := PhaseOf(s, t), LoadParentStep(s, t, PhaseOf(s, t));
            var q := PhaseOf(s', t);
            && s' == To(s, t, q)
            && if ParentRoom(s, p.pair.h.splitKey) then
                 q.SawParent? && q == SawParent(p.op, p.leaf, p.info, p.mark, p.pair, s'.pageVersion, q.page)
               else q == RollBack(p.op, p.leaf, p.info, p.mark, false)
  {
    hide Consistent, InsertChild, ParentRoom, Position, NodeChildren;
    ParentTakes(s, t);
  }

  lemma AloneCasParent(s: State, t: Thread)
    requires Consistent(s) && PhaseOf(s, t).SawParent?
    ensures var p, s' := PhaseOf(s, t), Do(s, t, CasParent);
            && Tracked(s, s', t, p.op)
            && PhaseOf(s', t) == if s.pageVersion == p.seen then InParent(p.op, p.leaf, p.mark, p.pair)
                                 else Halved(p.op, p.leaf, p.info, p.mark, p.pair)
  {
    hide Consistent, Read, InsertChild;
    CasParentOK(s, t);
  }

  lemma ParentTakes(s: State, t: Thread)
    requires Consistent(s) && PhaseOf(s, t).Halved?
    ensures var p := PhaseOf(s, t);
            var i := Position(NodeChildren(s.page), p.leaf);
            && i.Some?
            && (InsertChild(s.page, i.value, p.pair.h.splitKey, p.pair.left, p.pair.right).Ok?
                <==> ParentRoom(s, p.pair.h.splitKey))
  {
    hide CacheOK, PendingOK, PageMirrors, LogOK, RefsOK, SplitAndSet, Less, InsertChild;
    var p := PhaseOf(s, t);
    ThreadAt(s, t);
    LeafInParent(s, p.leaf);
    InsertChildSplices(s.page, Position(NodeChildren(s.page), p.leaf).value, p.pair.h.splitKey, p.pair.left,
                       p.pair.right);
  }

  lemma AloneCache(s: State, t: Thread)
    requires Consistent(s) && PhaseOf(s, t).InParent?
    ensures var p, s' := PhaseOf(s, t), Do(Do(s, t, LoadChildren), t, CasChildren);
            Tracked(s, s', t, p.op) && PhaseOf(s', t) == InCache(p.op, p.leaf, p.mark)
  {
    hide Consistent, Read, Splice, Tracked;
    var p, m := PhaseOf(s, t), Do(s, t, LoadChildren);
    AloneLoadChildren(s, t);
    TrackedEnds(s, m, t, p.op);
    AloneCasChildren(m, t);
    TrackedOn(s, m, Do(m, t, CasChildren), t, p.op);
  }

  lemma AloneLoadChildren(s: State, t: Thread)
    requires Consistent(s) && PhaseOf(s, t).InParent?
    ensures var p, s' := PhaseOf(s, t), Do(s, t, LoadChildren);
            var q := PhaseOf(s', t);
            Tracked(s, s', t, p.op) && q.SawCache? &&
            q == SawCache(p.op, p.leaf, p.mark, p.pair, s'.cacheVersion, q.cache)
  {
    hide Consistent, Read, Splice;
    LoadChildrenOK(s, t);
  }

  lemma AloneCasChildren(s: State, t: Thread)
    requires Consistent(s) && PhaseOf(s, t).SawCache?
    ensures var p, s' := PhaseOf(s, t), Do(s, t, CasChildren);
            && Tracked(s, s', t, p.op)
            && PhaseOf(s', t) == if s.cacheVersion == p.seen then InCache(p.op, p.leaf, p.mark)
                                 else InParent(p.op, p.leaf, p.mark, p.pair)
  {
    hide Consistent, Read, Splice;
    CasChildrenOK(s, t);
  }

  lemma AloneRedirect(s: State, t: Thread)
    requires Consistent(s) && PhaseOf(s, t).InCache?
    ensures var p, s' := PhaseOf(s, t), Do(s, t, CasRedirect);
            Tracked(s, s', t, p.op) && PhaseOf(s', t) == Done(p.op)
  {
    hide Consistent, Read;
    HoldsFacts(s, t);
    RedirectStep(s, t);
  }

  lemma AloneRollBack(s: State, t: Thread)
    requires Consistent(s) && PhaseOf(s, t).RollBack?
    ensures var p, s' := PhaseOf(s, t), Do(s, t, CasRollBack);
            && Tracked(s, s', t, p.op)
            && PhaseOf(s', t) == if p.retry then Searching(p.op) else Failed(p.op)
  {
    hide Consistent, Read;
    HoldsFacts(s, t);
    RollBackStep(s, t);
  }

  // ---------------------------------------------------------------- a thread that holds a leaf finishes

  /** The steps that end a split, or its rollback, from wherever it stands. */
  const FINISH := [BuildHalves, CasParent] + [LoadParent, CasParent] + [CasChildren] + [LoadChildren, CasChildren]
                  + [CasRedirect, CasRollBack]

  /** Whether a split that runs alone from here on ends with success. */
  ghost predicate WillSucceed(s: State, p: Phase) {
    match p
    case Marked(op, _, _, mark) =>
      && mark in s.infos && SplitAndSet(s.infos[mark].page, op.key, op.value).Ok?
      && ParentRoom(s, SplitAndSet(s.infos[mark].page, op.key, op.value).value.splitKey)
    case Halved(_, _, _, _, pair) => ParentRoom(s, pair.h.splitKey)
    case SawParent(_, _, _, _, pair, seen, _) => seen == s.pageVersion || ParentRoom(s, pair.h.splitKey)
    case RollBack(_, _, _, _, _) => false
    case _ => true
  }

  ghost predicate Retries(p: Phase) {
    p.RollBack? && p.retry
  }

  /** Thread `t` got on, still holds its leaf, and will end as it would have ended before. */
  ghost predicate Onward(s: State, s': State, t: Thread) {
    var p, q := PhaseOf(s, t), PhaseOf(s', t);
    && Holds(p).Some? && Holds(q) == Holds(p) && q.op == p.op && Tracked(s, s', t, p.op)
    && (WillSucceed(s', q) <==> WillSucceed(s, p)) && (Retries(q) <==> Retries(p))
  }

  lemma OnwardOn(s: State, m: State, s': State, t: Thread)
    requires Onward(s, m, t) && Onward(m, s', t)
    ensures Onward(s, s', t) && Consistent(s')
  {
    hide Tracked, WillSucceed, Retries;
    TrackedOn(s, m, s', t, PhaseOf(s, t).op);
    TrackedEnds(s, s', t, PhaseOf(s, t).op);
  }

  lemma OnwardSelf(s: State, t: Thread)
    requires Consistent(s) && Holds(PhaseOf(s, t)).Some?
    ensures Onward(s, s, t)
  {
    hide Tracked, WillSucceed;
    TrackedSelf(s, t);
  }

  lemma OnwardBuild(s: State, t: Thread)
    requires Consistent(s) && Holds(PhaseOf(s, t)).Some?
    ensures Onward(s, Do(s, t, BuildHalves), t) && !PhaseOf(Do(s, t, BuildHalves), t).Marked?
  {
    hide Tracked, SplitAndSet, Consistent;
    AloneBuild(s, t);
    if !PhaseOf(s, t).Marked? {
      OnwardSelf(s, t);
    }
  }

  lemma OnwardCasParent(s: State, t: Thread)
    requires Consistent(s) && Holds(PhaseOf(s, t)).Some? && !PhaseOf(s, t).Marked?
    ensures var s' := Do(s, t, CasParent);
            Onward(s, s', t) && !PhaseOf(s', t).Marked? && !PhaseOf(s', t).SawParent?
  {
    hide Tracked, SplitAndSet, Consistent;
    if PhaseOf(s, t).SawParent? {
      AloneCasParent(s, t);
    } else {
      OnwardSelf(s, t);
    }
  }

  lemma OnwardParent(s: State, t: Thread)
    requires Consistent(s) && Holds(PhaseOf(s, t)).Some? && !PhaseOf(s, t).Marked? && !PhaseOf(s, t).SawParent?
    ensures var s' := Do(Do(s, t, LoadParent), t, CasParent);
            var q := PhaseOf(s', t);
            Onward(s, s', t) && (q.InParent? || q.SawCache? || q.InCache? || q.RollBack?)
  {
    hide Tracked, SplitAndSet, Consistent;
    if PhaseOf(s, t).Halved? {
      AloneParent(s, t);
    } else {
      OnwardSelf(s, t);
    }
  }

  lemma OnwardCasChildren(s: State, t: Thread)
    requires Consistent(s)
    requires var p := PhaseOf(s, t); p.InParent? || p.SawCache? || p.InCache? || p.RollBack?
    ensures var s' := Do(s, t, CasChildren);
            var q := PhaseOf(s', t);
            Onward(s, s', t) && (q.InParent? || q.InCache? || q.RollBack?)
  {
    hide Tracked, SplitAndSet, Consistent;
    if PhaseOf(s, t).SawCache? {
      AloneCasChildren(s, t);
    } else {
      OnwardSelf(s, t);
    }
  }

  lemma OnwardCache(s: State, t: Thread)
    requires Consistent(s)
    requires var p := PhaseOf(s, t); p.InParent? || p.InCache? || p.RollBack?
    ensures var s' := Do(Do(s, t, LoadChildren), t, CasChildren);
            var q := PhaseOf(s', t);
            Onward(s, s', t) && (q.InCache? || q.RollBack?)
  {
    hide Tracked, SplitAndSet, Consistent;
    if PhaseOf(s, t).InParent? {
      AloneCache(s, t);
    } else {
      OnwardSelf(s, t);
    }
  }

  /** What becomes of the write of a thread that holds a leaf. */
  ghost function Ending(s: State, p: Phase): Phase
    requires Holds(p).Some?
  {
    if WillSucceed(s, p) then Done(p.op) else if Retries(p) then Searching(p.op) else Failed(p.op)
  }

  lemma Ends(s: State, t: Thread)
    requires Consistent(s) && (PhaseOf(s, t).InCache? || PhaseOf(s, t).RollBack?)
    ensures var s' := Do(Do(s, t, CasRedirect), t, CasRollBack);
            Tracked(s, s', t, PhaseOf(s, t).op) && PhaseOf(s', t) == Ending(s, PhaseOf(s, t))
  {
    hide Tracked, Consistent;
    if PhaseOf(s, t).InCache? {
      AloneRedirect(s, t);
    } else {
      AloneRollBack(s, t);
    }
  }

  lemma SoloTwo(s: State, t: Thread, a: Action, b: Action)
    ensures Solo(s, t, [a]) == Do(s, t, a) && Solo(s, t, [a, b]) == Do(Do(s, t, a), t, b)
  {
    hide Do;
    assert [a, b][1..] == [b] && [a][1..] == [];
    assert Solo(s, t, [a, b]) == Solo(Do(s, t, a), t, [b]);
    assert Solo(Do(s, t, a), t, [b]) == Solo(Do(Do(s, t, a), t, b), t, []);
  }

  /**
   A thread that holds a leaf comes to an end when it runs alone, whatever it has seen before: its write
   takes effect exactly if the leaf can be split and the parent page has room, and nothing changes otherwise.
   */
  lemma Finishes(s: State, t: Thread)
    requires Consistent(s) && Holds(PhaseOf(s, t)).Some?
    ensures var s' := Solo(s, t, FINISH);
            Tracked(s, s', t, PhaseOf(s, t).op) && PhaseOf(s', t) == Ending(s, PhaseOf(s, t))
  {
    hide Tracked, Consistent, Do, Solo, WillSucceed, Onward, Retries;
    var op := PhaseOf(s, t).op;
    var s1 := Do(s, t, BuildHalves);
    var s2 := Do(s1, t, CasParent);
    var s3 := Do(Do(s2, t, LoadParent), t, CasParent);
    var s4 := Do(s3, t, CasChildren);
    var s5 := Do(Do(s4, t, LoadChildren), t, CasChildren);
    OnwardBuild(s, t);
    OnwardEnds(s, s1, t);
    OnwardCasParent(s1, t);
    OnwardOn(s, s1, s2, t);
    OnwardEnds(s, s2, t);
    OnwardParent(s2, t);
    OnwardOn(s, s2, s3, t);
    OnwardCasChildren(s3, t);
    OnwardOn(s, s3, s4, t);
    OnwardCache(s4, t);
    OnwardOn(s, s4, s5, t);
    Ends(s5, t);
    OnwardEnds(s, s5, t);
    TrackedOn(s, s5, Do(Do(s5, t, CasRedirect), t, CasRollBack), t, op);
    FinishSteps(s, t);
  }

  lemma OnwardEnds(s: State, s': State, t: Thread)
    requires Onward(s, s', t)
    ensures var p, q := PhaseOf(s, t), PhaseOf(s', t);
            && Consistent(s') && Tracked(s, s', t, p.op) && Holds(p).Some? && Holds(q).Some?
            && Ending(s', q) == Ending(s, p) && p.op == q.op
  {
    hide Consistent, WillSucceed;
  }

  lemma FinishSteps(s: State, t: Thread)
    ensures var s2 := Do(Do(s, t, BuildHalves), t, CasParent);
            var s4 := Do(Do(Do(s2, t, LoadParent), t, CasParent), t, CasChildren);
            Solo(s, t, FINISH) == Do(Do(Do(Do(s4, t, LoadChildren), t, CasChildren), t, CasRedirect), t, CasRollBack)
  {
    hide Do, Solo;
    var a, b, c, d, e := [BuildHalves, CasParent], [LoadParent, CasParent], [CasChildren],
      [LoadChildren, CasChildren], [CasRedirect, CasRollBack];
    var s2 := Do(Do(s, t, BuildHalves), t, CasParent);
    var s3 := Do(Do(s2, t, LoadParent), t, CasParent);
    var s4 := Do(s3, t, CasChildren);
    var s5 := Do(Do(s4, t, LoadChildren), t, CasChildren);
    SoloAppend(s, t, a + b + c + d, e);
    SoloAppend(s, t, a + b + c, d);
    SoloAppend(s, t, a + b, c);
    SoloAppend(s, t, a, b);
    SoloTwo(s, t, BuildHalves, CasParent);
    SoloTwo(s2, t, LoadParent, CasParent);
    SoloTwo(s3, t, CasChildren, CasChildren);
    SoloTwo(s4, t, LoadChildren, CasChildren);
    SoloTwo(s5, t, CasRedirect, CasRollBack);
  }

  // ---------------------------------------------------------------- a write that runs alone

  /** All steps of one write; those that do not fit the way it takes change nothing. */
  ghost function Script(op: Op): seq<Action> {
    [Begin(op)] + DESCEND + [CasWrite, CasMark] + FINISH
  }

  /** The leaf of the key is in its normal state: nobody is splitting it. */
  ghost predicate Free(s: State, key: Key) {
    Known(s, Child(s, key)) && InfoOf(s, Child(s, key)).state == Normal
  }

  /** Whether a write that runs alone succeeds, as its caller could see it from the leaf and the parent page. */
  ghost predicate HasRoom(s: State, op: Op)
    requires Known(s, Child(s, op.key))
  {
    var page := InfoOf(s, Child(s, op.key)).page;
    if LeafIsFull(page, |op.key|, 0) then
      var h := SplitAndSet(page, op.key, op.value);
      h.Ok? && ParentRoom(s, h.value.splitKey)
    else LeafSet(page, op.key, op.value).Ok?
  }

  /** The write is over: with success as one map update, otherwise without a trace. */
  ghost predicate Written(s: State, s': State, t: Thread, op: Op, success: bool) {
    && Consistent(s') && OthersStay(s, s', t)
    && PhaseOf(s', t) == (if success then Done(op) else Failed(op))
    && (if success then TookEffect(s, s', t, op) else Unchanged(s, s'))
    && s'.successes == s.successes + Once(t, op, success)
  }

  lemma ReadyState(s: State, t: Thread, op: Op)
    requires Consistent(s) && (AtRest(PhaseOf(s, t)) || PhaseOf(s, t) == Searching(op))
    requires InRange(op.key, s.place.lo, s.place.hi) && Free(s, op.key)
    ensures var leaf := Child(s, op.key);
            var r := To(s, t, Ready(op, leaf, s.refs[leaf]));
            Consistent(r) && Unchanged(s, r) && OthersStay(s, r, t) && leaf in s.cache.children
  {
    hide RefsOK, ThreadsOK, PendingOK, PageMirrors, LogOK, CacheOK, Child, Less, Read;
    ChildAims(s, op);
    var leaf := Child(s, op.key);
    PhaseChange(s, t, Ready(op, leaf, s.refs[leaf]));
  }

  /** At rest the remaining steps change nothing. */
  lemma NothingLeft(s: State, t: Thread)
    requires PhaseOf(s, t).Done? || PhaseOf(s, t).Failed?
    ensures Do(s, t, CasMark) == s && Solo(s, t, FINISH) == s
  {
    hide Solo, Do;
    Rests(s, t, CasMark);
    Rests(s, t, BuildHalves);
    Rests(s, t, LoadParent);
    Rests(s, t, CasParent);
    Rests(s, t, LoadChildren);
    Rests(s, t, CasChildren);
    Rests(s, t, CasRedirect);
    Rests(s, t, CasRollBack);
    FinishSteps(s, t);
  }

  lemma Rests(s: State, t: Thread, a: Action)
    requires (PhaseOf(s, t).Done? || PhaseOf(s, t).Failed?) && !a.Begin?
    ensures Do(s, t, a) == s
  {
  }

  lemma ReadyWrites(s: State, r: State, t: Thread, op: Op)
    requires Consistent(s) && Free(s, op.key) && Consistent(r) && Unchanged(s, r) && OthersStay(s, r, t)
    requires AtRest(PhaseOf(s, t)) || PhaseOf(s, t) == Searching(op)
    requires r == To(s, t, Ready(op, Child(s, op.key), s.refs[Child(s, op.key)]))
    requires !LeafIsFull(InfoOf(s, Child(s, op.key)).page, |op.key|, 0)
    ensures Written(s, Do(r, t, CasWrite), t, op, HasRoom(s, op))
  {
    hide Consistent, Read, LeafSet, LeafIsFull, Child;
    var leaf := Child(s, op.key);
    if LeafSet(InfoOf(s, leaf).page, op.key, op.value).Ok? {
      WriteStep(r, t);
    } else {
      StepWrite(r, t);
      assert s.successes + [] == s.successes;
    }
  }

  lemma ReadyMarks(s: State, r: State, t: Thread, op: Op)
    requires Consistent(s) && Free(s, op.key) && Consistent(r) && Unchanged(s, r) && OthersStay(s, r, t)
    requires AtRest(PhaseOf(s, t)) || PhaseOf(s, t) == Searching(op)
    requires r == To(s, t, Ready(op, Child(s, op.key), s.refs[Child(s, op.key)]))
    requires LeafIsFull(InfoOf(s, Child(s, op.key)).page, |op.key|, 0)
    ensures Do(r, t, CasWrite) == r
    ensures var m := Do(r, t, CasMark);
            && Consistent(m) && Unchanged(s, m) && OthersStay(s, m, t) && m.successes == s.successes
            && PhaseOf(m, t).Marked? && PhaseOf(m, t).op == op && (WillSucceed(m, PhaseOf(m, t)) <==> HasRoom(s, op))
  {
    hide Consistent, Read, SplitAndSet, LeafIsFull, Child;
    MarkStep(r, t);
  }

  lemma ScriptSteps(s: State, t: Thread, op: Op)
    ensures var r := Solo(s, t, [Begin(op)] + DESCEND);
            Solo(s, t, Script(op)) == Solo(Do(Do(r, t, CasWrite), t, CasMark), t, FINISH)
  {
    hide Do, Solo;
    var r := Solo(s, t, [Begin(op)] + DESCEND);
    SoloAppend(s, t, [Begin(op)] + DESCEND + [CasWrite, CasMark], FINISH);
    SoloAppend(s, t, [Begin(op)] + DESCEND, [CasWrite, CasMark]);
    SoloTwo(r, t, CasWrite, CasMark);
  }

  /**
   A write that runs alone on a leaf that nobody is splitting comes to an end: it takes effect and returns
   success if and only if the leaf and, for a full leaf, its halves and the parent page have room.
   */
  lemma SoloWrite(s: State, t: Thread, op: Op)
    requires Consistent(s) && AtRest(PhaseOf(s, t)) && InRange(op.key, s.place.lo, s.place.hi) && Free(s, op.key)
    ensures Written(s, Solo(s, t, Script(op)), t, op, HasRoom(s, op))
  {
    hide Consistent, Do, Solo, Child;
    Descends(s, t, op);
    ScriptSteps(s, t, op);
    ReadyEnds(s, t, op);
  }

  /** The same for a write that has begun and is about to load the cache. */
  lemma SearchEnds(s: State, t: Thread, op: Op)
    requires Consistent(s) && PhaseOf(s, t) == Searching(op) && InRange(op.key, s.place.lo, s.place.hi)
    requires Free(s, op.key)
    ensures Written(s, Solo(s, t, DESCEND + [CasWrite, CasMark] + FINISH), t, op, HasRoom(s, op))
  {
    hide Consistent, Do, Solo, Child;
    var leaf := Child(s, op.key);
    var r := To(s, t, Ready(op, leaf, s.refs[leaf]));
    assert To(s, t, Searching(op)) == s;
    DescentSteps(s, t, op);
    LoadSteps(s, t, op, leaf);
    SoloFour(s, t, LoadCache, CheckChild, LoadInfo, LoadAgain);
    SoloAppend(s, t, DESCEND + [CasWrite, CasMark], FINISH);
    SoloAppend(s, t, DESCEND, [CasWrite, CasMark]);
    SoloTwo(r, t, CasWrite, CasMark);
    ReadyEnds(s, t, op);
  }

  lemma ReadyEnds(s: State, t: Thread, op: Op)
    requires Consistent(s) && (AtRest(PhaseOf(s, t)) || PhaseOf(s, t) == Searching(op))
    requires InRange(op.key, s.place.lo, s.place.hi) && Free(s, op.key)
    ensures var leaf := Child(s, op.key);
            var r := To(s, t, Ready(op, leaf, s.refs[leaf]));
            Written(s, Solo(Do(Do(r, t, CasWrite), t, CasMark), t, FINISH), t, op, HasRoom(s, op))
  {
    hide Consistent, Read, LeafIsFull, SplitAndSet, Child, Do, Solo, HasRoom, WillSucceed, Unchanged, OthersStay;
    var leaf := Child(s, op.key);
    var r := To(s, t, Ready(op, leaf, s.refs[leaf]));
    ReadyState(s, t, op);
    if LeafIsFull(InfoOf(s, leaf).page, |op.key|, 0) {
      ReadyMarks(s, r, t, op);
      var m := Do(r, t, CasMark);
      Finishes(m, t);
      MarkedEnds(s, m, Solo(m, t, FINISH), t, op, HasRoom(s, op));
    } else {
      ReadyWrites(s, r, t, op);
      NothingLeft(Do(r, t, CasWrite), t);
    }
  }

  lemma MarkedEnds(s: State, m: State, s': State, t: Thread, op: Op, success: bool)
    requires Unchanged(s, m) && OthersStay(s, m, t) && m.successes == s.successes && PhaseOf(m, t).Marked?
    requires PhaseOf(m, t).op == op && (WillSucceed(m, PhaseOf(m, t)) <==> success)
    requires Tracked(m, s', t, op) && PhaseOf(s', t) == Ending(m, PhaseOf(m, t))
    ensures Written(s, s', t, op, success)
  {
    hide Consistent, Read, WillSucceed;
  }

  // ---------------------------------------------------------------- who blocks whom

  /** A leaf of the cache that is not in its normal state is held by a thread. */
  ghost predicate Attended(s: State, r: RefId) {
    Known(s, r) && (InfoOf(s, r).state == Normal || exists t :: Holds(PhaseOf(s, t)) == Some(r))
  }

  ghost predicate AllAttended(s: State) {
    forall r {:trigger Attended(s, r)} :: r in s.cache.children ==> Attended(s, r)
  }

  /** The records behind the leaves stay, and so does what the threads hold. */
  ghost predicate SameHolders(s: State, s': State) {
    && s'.refs == s.refs && s'.infos == s.infos && s'.cache == s.cache
    && forall u {:trigger PhaseOf(s, u)} :: Holds(PhaseOf(s, u)).Some? ==> Holds(PhaseOf(s', u)) == Holds(PhaseOf(s, u))
  }

  lemma AttendedStays(s: State, s': State)
    requires AllAttended(s) && SameHolders(s, s')
    ensures AllAttended(s')
  {
    hide Holds;
    forall r | r in s'.cache.children ensures Attended(s', r) {
      assert Attended(s, r);
      if InfoOf(s, r).state != Normal {
        var t :| Holds(PhaseOf(s, t)) == Some(r);
        assert Holds(PhaseOf(s', t)) == Some(r);
      }
    }
  }

  /** Another record is put behind `leaf`; thread `t` holds that leaf, before or after, and no other. */
  lemma AttendedSwap(s: State, s': State, t: Thread, leaf: RefId)
    requires AllAttended(s) && s'.cache == s.cache && s'.refs.Keys == s.refs.Keys && leaf in s.refs
    requires forall x :: x in s.refs && x != leaf ==> s'.refs[x] == s.refs[x]
    requires forall i :: i in s.infos ==> i in s'.infos && s'.infos[i] == s.infos[i]
    requires forall u {:trigger PhaseOf(s, u)} :: u != t ==> PhaseOf(s', u) == PhaseOf(s, u)
    requires Holds(PhaseOf(s, t)).None? || Holds(PhaseOf(s, t)) == Some(leaf)
    requires leaf in s.cache.children ==> Attended(s', leaf)
    ensures AllAttended(s')
  {
    hide Holds;
    forall r | r in s'.cache.children ensures Attended(s', r) {
      assert Attended(s, r);
      if r != leaf && InfoOf(s, r).state != Normal {
        var u :| Holds(PhaseOf(s, u)) == Some(r);
        assert Holds(PhaseOf(s', u)) == Some(r);
      }
    }
  }

  lemma InstallOthers(s: State, t: Thread, u: Thread)
    requires PhaseOf(s, t).SawCache? && u != t
    ensures PhaseOf(CasChildrenStep(s, t, PhaseOf(s, t)), u) == PhaseOf(s, u)
  {
  }

  lemma AttendedPublish(s: State, s': State, t: Thread)
    requires Consistent(s) && AllAttended(s) && PhaseOf(s, t).SawCache? && s.cacheVersion == PhaseOf(s, t).seen
    requires s' == CasChildrenStep(s, t, PhaseOf(s, t))
    ensures AllAttended(s')
  {
    hide PendingOK, PageMirrors, LogOK, Splice, Less, SplitAndSet, Install, Position, PageOK, SeparatorsWithin, Built;
    var p := PhaseOf(s, t);
    ThreadAt(s, t);
    InstallPublishes(s, s', t, p);
    CachedDistinct(s);
    var i := Position(s.cache.children, p.leaf).value;
    SpliceMembers(s.cache, i, p.pair.left, p.pair.right, p.pair.h.splitKey);
    forall r | r in s'.cache.children ensures Attended(s', r) {
      if r in s.cache.children {
        assert Attended(s, r);
        if InfoOf(s, r).state != Normal {
          var u :| Holds(PhaseOf(s, u)) == Some(r);
          assert u != t;
          InstallOthers(s, t, u);
        }
      }
    }
  }

  lemma NextIsNew(s: State)
    requires Consistent(s)
    ensures forall i :: i in s.infos ==> i < s.next
  {
  }

  lemma AttendedReady(s: State, t: Thread, a: Action)
    requires Consistent(s) && AllAttended(s) && PhaseOf(s, t).Ready? && (a.CasWrite? || a.CasMark?)
    ensures AllAttended(Do(s, t, a))
  {
    hide Consistent, AllAttended, Do, SameHolders, Attended;
    var p, s' := PhaseOf(s, t), Do(s, t, a);
    ReadyMoves(s, t, a);
    if SameHolders(s, s') {
      AttendedStays(s, s');
    } else {
      AttendedSwap(s, s', t, p.leaf);
    }
  }

  /** Another record is behind the leaf, which is in its normal state or held. */
  ghost predicate Swapped(s: State, s': State, t: Thread, leaf: RefId) {
    && leaf in s.refs && s'.cache == s.cache && s'.refs == s.refs[leaf := s.next]
    && (forall i :: i in s.infos ==> i in s'.infos && s'.infos[i] == s.infos[i])
    && (forall u {:trigger PhaseOf(s, u)} :: u != t ==> PhaseOf(s', u) == PhaseOf(s, u))
    && Attended(s', leaf)
  }

  /** Writing or marking swaps one record, or moves the thread on. */
  lemma ReadyMoves(s: State, t: Thread, a: Action)
    requires Consistent(s) && PhaseOf(s, t).Ready? && (a.CasWrite? || a.CasMark?)
    ensures var p, s' := PhaseOf(s, t), Do(s, t, a);
            SameHolders(s, s') || Swapped(s, s', t, p.leaf)
  {
    hide Consistent, CasWriteStep, CasMarkStep, Swapped;
    NextIsNew(s);
    var p := PhaseOf(s, t);
    if p.info in s.infos && Known(s, p.leaf) {
      if a.CasWrite? {
        WriteMoves(s, t, p);
      } else {
        MarkMoves(s, t, p);
      }
    }
  }

  lemma WriteMoves(s: State, t: Thread, p: Phase)
    requires p == PhaseOf(s, t) && p.Ready? && p.info in s.infos && Known(s, p.leaf)
    requires forall i :: i in s.infos ==> i < s.next
    ensures var s' := CasWriteStep(s, t, p); SameHolders(s, s') || Swapped(s, s', t, p.leaf)
  {
    hide LeafSet, LeafIsFull;
  }

  lemma MarkMoves(s: State, t: Thread, p: Phase)
    requires p == PhaseOf(s, t) && p.Ready? && p.info in s.infos && Known(s, p.leaf)
    requires forall i :: i in s.infos ==> i < s.next
    ensures var s' := CasMarkStep(s, t, p); SameHolders(s, s') || Swapped(s, s', t, p.leaf)
  {
    hide LeafIsFull;
    var s' := CasMarkStep(s, t, p);
    if PhaseOf(s', t).Marked? {
      assert Holds(PhaseOf(s', t)) == Some(p.leaf);
    }
  }

  lemma AttendedEnd(s: State, t: Thread, a: Action)
    requires Consistent(s) && AllAttended(s) && (PhaseOf(s, t).InCache? || PhaseOf(s, t).RollBack?)
    requires a.CasRedirect? || a.CasRollBack?
    ensures AllAttended(Do(s, t, a))
  {
    hide Consistent, AllAttended;
    var p, s' := PhaseOf(s, t), Do(s, t, a);
    NextIsNew(s);
    HoldsFacts(s, t);
    EndFacts(s, t);
    if (p.InCache? && a.CasRedirect?) || (p.RollBack? && a.CasRollBack?) {
      AttendedSwap(s, s', t, p.leaf);
    } else {
      AttendedStays(s, s');
    }
  }

  lemma EndFacts(s: State, t: Thread)
    requires Consistent(s)
    ensures var p := PhaseOf(s, t);
            && (p.InCache? ==> p.leaf !in s.cache.children)
            && (p.RollBack? ==> p.info in s.infos && s.infos[p.info].state == Normal)
  {
    hide CacheOK, RefsOK, PendingOK, PageMirrors, LogOK, Less;
    ThreadAt(s, t);
  }

  /** A search step, or giving up, moves the thread on and lets no leaf go. */
  lemma AttendedSearch(s: State, t: Thread, a: Action)
    requires AllAttended(s)
    requires a.Begin? || a.LoadCache? || a.CheckChild? || a.LoadInfo? || a.LoadAgain? || a.GiveUp? || a.NoMemory?
    ensures AllAttended(Do(s, t, a))
  {
    hide AllAttended, Do, Holds;
    SearchMoves(s, t, a);
    AttendedStays(s, Do(s, t, a));
  }

  lemma SearchMoves(s: State, t: Thread, a: Action)
    requires a.Begin? || a.LoadCache? || a.CheckChild? || a.LoadInfo? || a.LoadAgain? || a.GiveUp? || a.NoMemory?
    ensures var q := PhaseOf(Do(s, t, a), t);
            && (Do(s, t, a) == s || Do(s, t, a) == To(s, t, q))
            && (Holds(PhaseOf(s, t)).Some? ==> Holds(q) == Holds(PhaseOf(s, t)))
  {
    hide LeafIsFull, Child, Less;
    if a.GiveUp? || a.NoMemory? {
      EndMoves(s, t, a);
    }
  }

  lemma EndMoves(s: State, t: Thread, a: Action)
    requires a.GiveUp? || a.NoMemory?
    ensures var q := PhaseOf(Do(s, t, a), t);
            && (Do(s, t, a) == s || Do(s, t, a) == To(s, t, q))
            && (Holds(PhaseOf(s, t)).Some? ==> Holds(q) == Holds(PhaseOf(s, t)))
  {
    hide LeafIsFull;
  }

  /** A step of a split that lets its leaf not go. */
  lemma AttendedSplit(s: State, t: Thread, a: Action)
    requires Consistent(s) && AllAttended(s)
    requires a.BuildHalves? || a.LoadParent? || a.CasParent? || a.LoadChildren?
    ensures AllAttended(Do(s, t, a))
  {
    hide Consistent, AllAttended, Do, SameHolders;
    SplitMoves(s, t, a);
    AttendedStays(s, Do(s, t, a));
  }

  lemma SplitMoves(s: State, t: Thread, a: Action)
    requires Consistent(s) && (a.BuildHalves? || a.LoadParent? || a.CasParent? || a.LoadChildren?)
    ensures SameHolders(s, Do(s, t, a))
  {
    hide Consistent, BuildStep, LoadParentStep, CasParentStep, LoadChildrenStep, Holds;
    var p := PhaseOf(s, t);
    if a.BuildHalves? && p.Marked? && p.mark in s.infos {
      BuildMoves(s, t, p);
    } else if a.LoadParent? && p.Halved? {
      LoadParentMoves(s, t, p);
    } else if a.CasParent? && p.SawParent? {
      CasParentMoves(s, t, p);
    } else if a.LoadChildren? && p.InParent? {
      LoadChildrenOK(s, t);
      LoadChildrenMoves(s, t, p);
    }
  }

  lemma BuildMoves(s: State, t: Thread, p: Phase)
    requires p == PhaseOf(s, t) && p.Marked? && p.mark in s.infos
    ensures SameHolders(s, BuildStep(s, t, p))
  {
    hide SplitAndSet;
  }

  lemma LoadParentMoves(s: State, t: Thread, p: Phase)
    requires p == PhaseOf(s, t) && p.Halved?
    ensures SameHolders(s, LoadParentStep(s, t, p))
  {
    hide InsertChild, Position, NodeChildren;
  }

  lemma CasParentMoves(s: State, t: Thread, p: Phase)
    requires p == PhaseOf(s, t) && p.SawParent?
    ensures SameHolders(s, CasParentStep(s, t, p))
  {
  }

  lemma LoadChildrenMoves(s: State, t: Thread, p: Phase)
    requires p == PhaseOf(s, t) && p.InParent? && PhaseOf(LoadChildrenStep(s, t, p), t).SawCache?
    ensures SameHolders(s, LoadChildrenStep(s, t, p))
  {
    hide Splice, Position;
  }

  /** No step leaves a leaf of the cache marked without a thread that holds it. */
  lemma StepAttended(s: State, t: Thread, a: Action)
    requires Consistent(s) && AllAttended(s)
    ensures AllAttended(Do(s, t, a))
  {
    hide Consistent, AllAttended, CasWriteStep, CasMarkStep, CasChildrenStep, CasRedirectStep, CasRollBackStep;
    var p := PhaseOf(s, t);
    match a
    case CasWrite => if p.Ready? { AttendedReady(s, t, a); }
    case CasMark => if p.Ready? { AttendedReady(s, t, a); }
    case CasRedirect => if p.InCache? { AttendedEnd(s, t, a); }
    case CasRollBack => if p.RollBack? { AttendedEnd(s, t, a); }
    case CasChildren =>
      if p.SawCache? {
        if s.cacheVersion == p.seen {
          AttendedPublish(s, Do(s, t, a), t);
        } else {
          AttendedCache(s, t);
        }
      }
    case BuildHalves => AttendedSplit(s, t, a);
    case LoadParent => AttendedSplit(s, t, a);
    case CasParent => AttendedSplit(s, t, a);
    case LoadChildren => AttendedSplit(s, t, a);
    case _ => AttendedSearch(s, t, a);
  }

  lemma AttendedCache(s: State, t: Thread)
    requires AllAttended(s) && PhaseOf(s, t).SawCache? && s.cacheVersion != PhaseOf(s, t).seen
    ensures AllAttended(CasChildrenStep(s, t, PhaseOf(s, t)))
  {
    hide AllAttended;
    AttendedStays(s, CasChildrenStep(s, t, PhaseOf(s, t)));
  }

  /** Over every run: a leaf of the cache is in its normal state or held by a thread. */
  lemma {:induction false} RunAttended(s: State, steps: seq<Step>)
    requires Consistent(s) && AllAttended(s)
    ensures Consistent(Run(s, steps)) && AllAttended(Run(s, steps))
  {
    hide Consistent, AllAttended, Do, Linearized;
    if steps != [] {
      var n := |steps| - 1;
      RunAttended(s, steps[..n]);
      StepLinearized(Run(s, steps[..n]), steps[n].thread, steps[n].action);
      StepAttended(Run(s, steps[..n]), steps[n].thread, steps[n].action);
    }
  }

  lemma StartAttended(place: Place)
    ensures AllAttended(Start(place))
  {
    var s := Start(place);
    forall r | r in s.cache.children ensures Attended(s, r) {
      assert r == 1;
    }
  }

  lemma {:induction false} RunAppend(s: State, a: seq<Step>, b: seq<Step>)
    ensures Run(s, a + b) == Run(Run(s, a), b)
  {
    hide Do;
    if b == [] {
      assert a + b == a;
    } else {
      RunAppend(s, a, b[..|b| - 1]);
      assert (a + b)[..|a + b| - 1] == a + b[..|b| - 1];
    }
  }

  ghost function Holders(s: State): set<Thread> {
    set t | t in s.threads && Holds(PhaseOf(s, t)).Some?
  }

  /** Steps of threads other than `t`, none of which gives up or runs out of memory. */
  ghost predicate Others(steps: seq<Step>, t: Thread) {
    forall i :: 0 <= i < |steps| ==> steps[i].thread != t && !steps[i].action.GiveUp? && !steps[i].action.NoMemory?
  }

  lemma FinishIsOthers(u: Thread, t: Thread)
    requires u != t
    ensures Others(StepsOf(u, FINISH), t)
  {
    assert FINISH == [BuildHalves, CasParent, LoadParent, CasParent, CasChildren, LoadChildren, CasChildren,
                      CasRedirect, CasRollBack];
  }

  lemma FewerHolders(s: State, s': State, u: Thread)
    requires OthersStay(s, s', u) && Holds(PhaseOf(s, u)).Some? && Holds(PhaseOf(s', u)).None?
    ensures |Holders(s')| < |Holders(s)|
  {
    hide Holds;
    assert Holds(Idle).None? by { NothingHeld(); }
    forall t | t in Holders(s') ensures t in Holders(s) {
      assert PhaseOf(s', t) == PhaseOf(s, t);
    }
    assert u in Holders(s) && u !in Holders(s');
    SubsetSize(Holders(s'), Holders(s));
  }

  lemma NothingHeld()
    ensures Holds(Idle).None?
  {
  }

  /** When the threads that hold leaves finish one after the other, the leaf of a key becomes free. */
  lemma {:induction false} Clears(s: State, t: Thread, key: Key) returns (waits: seq<Step>)
    requires Consistent(s) && AllAttended(s) && InRange(key, s.place.lo, s.place.hi) && Holds(PhaseOf(s, t)).None?
    ensures Others(waits, t)
    ensures var m := Run(s, waits);
            Consistent(m) && Free(m, key) && PhaseOf(m, t) == PhaseOf(s, t) && m.place == s.place
    decreases |Holders(s)|
  {
    hide Consistent, AllAttended, Child, Less, Tracked, Solo, Do, WillSucceed;
    var leaf := Child(s, key);
    LeafAttended(s, key);
    if InfoOf(s, leaf).state == Normal {
      return [];
    }
    var u :| Holds(PhaseOf(s, u)) == Some(leaf);
    var s1 := Solo(s, u, FINISH);
    Finishes(s, u);
    FinishedFacts(s, s1, u);
    SoloIsRun(s, u, FINISH);
    RunAttended(s, StepsOf(u, FINISH));
    FewerHolders(s, s1, u);
    var rest := Clears(s1, t, key);
    FinishIsOthers(u, t);
    RunAppend(s, StepsOf(u, FINISH), rest);
    return StepsOf(u, FINISH) + rest;
  }

  lemma FinishedFacts(s: State, s': State, u: Thread)
    requires Holds(PhaseOf(s, u)).Some? && Tracked(s, s', u, PhaseOf(s, u).op)
    requires PhaseOf(s', u) == Ending(s, PhaseOf(s, u))
    ensures OthersStay(s, s', u) && Holds(PhaseOf(s', u)).None?
  {
    hide Consistent, WillSucceed, Retries;
  }

  lemma LeafAttended(s: State, key: Key)
    requires Consistent(s) && AllAttended(s) && InRange(key, s.place.lo, s.place.hi)
    ensures Attended(s, Child(s, key))
  {
    hide RefsOK, ThreadsOK, PendingOK, PageMirrors, LogOK, CacheOK, Child, Less, Attended;
    ChildAims(s, Op(key, []));
  }

  /**
   No write can be blocked for good. After every run a thread at rest can write any key of the parent: once
   the threads that hold leaves have finished, its own steps end the write, and with success if and only if
   there is room.
   */
  lemma NeverBlocked(place: Place, steps: seq<Step>, t: Thread, op: Op) returns (waits: seq<Step>)
    requires InRange(op.key, place.lo, place.hi) && AtRest(PhaseOf(Run(Start(place), steps), t))
    ensures Others(waits, t)
    ensures var m := Run(Start(place), steps + waits);
            && Free(m, op.key)
            && Written(m, Run(Start(place), steps + waits + StepsOf(t, Script(op))), t, op, HasRoom(m, op))
  {
    hide Consistent, AllAttended, Child, Less, Solo, Do, Start, HasRoom, Written;
    var start := Start(place);
    var s := Run(start, steps);
    StartConsistent(place);
    StartAttended(place);
    RunAttended(start, steps);
    RunPlace(start, steps);
    StartPlace(place);
    waits := Clears(s, t, op.key);
    RunAppend(start, steps, waits);
    RunAppend(start, steps + waits, StepsOf(t, Script(op)));
    var m := Run(s, waits);
    SoloWrite(m, t, op);
    SoloIsRun(m, t, Script(op));
  }

  lemma StartPlace(place: Place)
    ensures Start(place).place == place
  {
  }

  lemma {:induction false} RunPlace(s: State, steps: seq<Step>)
    ensures Run(s, steps).place == s.place
  {
    hide Do;
    if steps != [] {
      var n := |steps| - 1;
      RunPlace(s, steps[..n]);
      if !steps[n].action.Begin? {
        DoMoves(Run(s, steps[..n]), steps[n].thread, steps[n].action);
      } else {
        BeginMoves(Run(s, steps[..n]), steps[n].thread, steps[n].action);
      }
    }
  }

  lemma BeginMoves(s: State, t: Thread, a: Action)
    requires a.Begin?
    ensures Do(s, t, a).place == s.place && forall u :: u != t ==> PhaseOf(Do(s, t, a), u) == PhaseOf(s, u)
  {
  }

  /** One step of thread `t`: nobody else moves, and it stays with its write. */
  ghost predicate MovesOnly(s: State, s': State, t: Thread, p: Phase) {
    && s'.place == s.place && (forall u :: u != t ==> PhaseOf(s', u) == PhaseOf(s, u))
    && (p.Idle? || (!PhaseOf(s', t).Idle? && PhaseOf(s', t).op == p.op))
  }

  lemma DoMoves(s: State, t: Thread, a: Action)
    requires !a.Begin?
    ensures MovesOnly(s, Do(s, t, a), t, PhaseOf(s, t))
  {
    hide LeafIsFull, Child, CasWriteStep, CasMarkStep, BuildStep, LoadParentStep, CasParentStep, LoadChildrenStep,
      CasChildrenStep, CasRedirectStep, CasRollBackStep;
    var p := PhaseOf(s, t);
    SplitStepMoves(s, t, p);
    if p.Ready? && p.info in s.infos && Known(s, p.leaf) {
      ReadyStepMoves(s, t, p);
    }
  }

  lemma ReadyStepMoves(s: State, t: Thread, p: Phase)
    requires p == PhaseOf(s, t) && p.Ready? && p.info in s.infos && Known(s, p.leaf)
    ensures MovesOnly(s, CasWriteStep(s, t, p), t, p) && MovesOnly(s, CasMarkStep(s, t, p), t, p)
  {
    hide LeafIsFull, LeafSet;
  }

  lemma SplitStepMoves(s: State, t: Thread, p: Phase)
    requires p == PhaseOf(s, t)
    ensures p.Marked? && p.mark in s.infos ==> MovesOnly(s, BuildStep(s, t, p), t, p)
    ensures p.Halved? ==> MovesOnly(s, LoadParentStep(s, t, p), t, p)
    ensures p.SawParent? ==> MovesOnly(s, CasParentStep(s, t, p), t, p)
    ensures p.InParent? ==> MovesOnly(s, LoadChildrenStep(s, t, p), t, p)
    ensures p.SawCache? ==> MovesOnly(s, CasChildrenStep(s, t, p), t, p)
    ensures p.InCache? && Known(s, p.leaf) && p.mark in s.infos ==> MovesOnly(s, CasRedirectStep(s, t, p), t, p)
    ensures p.RollBack? && Known(s, p.leaf) ==> MovesOnly(s, CasRollBackStep(s, t, p), t, p)
  {
    hide SplitAndSet, InsertChild, Position, Splice, NodeChildren;
  }

  // ---------------------------------------------------------------- from anywhere

  /** The rest of a round of the search, and of the write it leads to. */
  const ROUND := [CheckChild, LoadCache] + [LoadInfo, LoadAgain] + [CasWrite, CasMark]

  /** The thread is still working on `op`, or has ended it. */
  ghost predicate WorksOn(s: State, t: Thread, op: Op) {
    Consistent(s) && !PhaseOf(s, t).Idle? && PhaseOf(s, t).op == op
  }

  lemma OneStep(s: State, t: Thread, a: Action, op: Op)
    requires WorksOn(s, t, op) && !a.Begin?
    ensures WorksOn(Do(s, t, a), t, op)
  {
    hide Consistent, Do, Linearized;
    StepLinearized(s, t, a);
    DoMoves(s, t, a);
  }

  lemma LeafKnown(s: State, t: Thread)
    requires Consistent(s)
    ensures var p := PhaseOf(s, t);
            && (p.Found? || p.Located? || p.Loaded? || p.Ready? ==> Known(s, p.leaf))
            && (p.Ready? ==> p.info in s.infos)
  {
    hide CacheOK, PendingOK, PageMirrors, LogOK, PageOK, Less;
    ThreadAt(s, t);
    var p := PhaseOf(s, t);
    if p.Found? || p.Located? || p.Loaded? || p.Ready? {
      assert RefOK(s, p.leaf);
    }
  }

  /** Whatever child was chosen, the search has located a leaf, unless the thread is further on. */
  lemma Locates(s: State, t: Thread, op: Op)
    requires WorksOn(s, t, op) && !PhaseOf(s, t).Searching?
    ensures var s' := Do(Do(s, t, CheckChild), t, LoadCache);
            var q := PhaseOf(s', t);
            WorksOn(s', t, op) && !q.Searching? && !q.Found? && !q.Renavigate?
  {
    hide Consistent, Child;
    LeafKnown(s, t);
    OneStep(s, t, CheckChild, op);
    OneStep(Do(s, t, CheckChild), t, LoadCache, op);
  }

  lemma Rereads(s: State, t: Thread, op: Op)
    requires WorksOn(s, t, op)
    requires var p := PhaseOf(s, t); !p.Searching? && !p.Found? && !p.Renavigate?
    ensures var s' := Do(Do(s, t, LoadInfo), t, LoadAgain);
            var q := PhaseOf(s', t);
            WorksOn(s', t, op) && (q.Searching? || q.Ready? || Holds(q).Some? || AtRest(q))
  {
    hide Consistent;
    var m := Do(s, t, LoadInfo);
    LeafKnown(s, t);
    OneStep(s, t, LoadInfo, op);
    LeafKnown(m, t);
    OneStep(m, t, LoadAgain, op);
  }

  lemma Decides(s: State, t: Thread, op: Op)
    requires WorksOn(s, t, op)
    requires var p := PhaseOf(s, t); p.Searching? || p.Ready? || Holds(p).Some? || AtRest(p)
    ensures var s' := Do(Do(s, t, CasWrite), t, CasMark);
            var q := PhaseOf(s', t);
            WorksOn(s', t, op) && (q.Searching? || Holds(q).Some? || AtRest(q))
  {
    hide Consistent, LeafSet, LeafIsFull;
    LeafKnown(s, t);
    OneStep(s, t, CasWrite, op);
    OneStep(Do(s, t, CasWrite), t, CasMark, op);
  }

  /** Alone, a thread that is anywhere but at the start of its search ends its write or is back at that start. */
  lemma RoundEnds(s: State, t: Thread, op: Op)
    requires WorksOn(s, t, op) && !PhaseOf(s, t).Searching?
    ensures var s' := Solo(s, t, ROUND + FINISH);
            Consistent(s') && PhaseOf(s', t) in {Done(op), Failed(op), Searching(op)}
  {
    hide Consistent, Do, Solo, Tracked, WillSucceed;
    var s1 := Do(Do(s, t, CheckChild), t, LoadCache);
    var s2 := Do(Do(s1, t, LoadInfo), t, LoadAgain);
    var s3 := Do(Do(s2, t, CasWrite), t, CasMark);
    Locates(s, t, op);
    Rereads(s1, t, op);
    Decides(s2, t, op);
    SoloAppend(s, t, [CheckChild, LoadCache] + [LoadInfo, LoadAgain] + [CasWrite, CasMark], FINISH);
    SoloAppend(s, t, [CheckChild, LoadCache] + [LoadInfo, LoadAgain], [CasWrite, CasMark]);
    SoloAppend(s, t, [CheckChild, LoadCache], [LoadInfo, LoadAgain]);
    SoloTwo(s, t, CheckChild, LoadCache);
    SoloTwo(s1, t, LoadInfo, LoadAgain);
    SoloTwo(s2, t, CasWrite, CasMark);
    var q := PhaseOf(s3, t);
    if Holds(q).Some? {
      Finishes(s3, t);
      TrackedEnds(s3, Solo(s3, t, FINISH), t, op);
    } else if q.Searching? {
      SearchIdles(s3, t);
    } else {
      NothingLeft(s3, t);
    }
  }

  lemma SearchIdles(s: State, t: Thread)
    requires PhaseOf(s, t).Searching?
    ensures Solo(s, t, FINISH) == s
  {
    hide Solo;
    FinishSteps(s, t);
  }

  /** None of the steps gives up, runs out of memory or begins another write of `t`. */
  ghost predicate Willing(steps: seq<Step>, t: Thread) {
    forall i :: 0 <= i < |steps| ==>
      !steps[i].action.GiveUp? && !steps[i].action.NoMemory? && !(steps[i].thread == t && steps[i].action.Begin?)
  }

  lemma ScriptsWilling(t: Thread)
    ensures Willing(StepsOf(t, ROUND + FINISH), t)
    ensures Willing(StepsOf(t, DESCEND + [CasWrite, CasMark] + FINISH), t)
  {
  }

  lemma OthersWilling(steps: seq<Step>, t: Thread)
    requires Others(steps, t)
    ensures Willing(steps, t)
  {
  }

  lemma WillingAppend(a: seq<Step>, b: seq<Step>, t: Thread)
    requires Willing(a, t) && Willing(b, t)
    ensures Willing(a + b, t)
  {
  }

  /**
   No write can get stuck. After every run, whatever a thread and all others have got to, the write the thread
   is working on can be brought to its end with success or failure without anybody giving up.
   */
  lemma NeverStuck(place: Place, steps: seq<Step>, t: Thread) returns (more: seq<Step>)
    requires !PhaseOf(Run(Start(place), steps), t).Idle?
    ensures Willing(more, t)
    ensures var op := PhaseOf(Run(Start(place), steps), t).op;
            PhaseOf(Run(Start(place), steps + more), t) in {Done(op), Failed(op)}
  {
    hide Consistent, AllAttended, Child, Less, Solo, Do, Start, Written;
    var start := Start(place);
    var s := Run(start, steps);
    var op := PhaseOf(s, t).op;
    StartConsistent(place);
    StartAttended(place);
    RunAttended(start, steps);
    more := [];
    ScriptsWilling(t);
    if !PhaseOf(s, t).Searching? {
      RoundEnds(s, t, op);
      SoloIsRun(s, t, ROUND + FINISH);
      more := StepsOf(t, ROUND + FINISH);
    } else {
      assert steps + more == steps;
    }
    RunAppend(start, steps, more);
    RunAttended(start, steps + more);
    var m := Run(start, steps + more);
    if PhaseOf(m, t).Searching? {
      var rest := SearchFinishes(m, t, op);
      RunAppend(start, steps + more, rest);
      assert steps + (more + rest) == steps + more + rest;
      WillingAppend(more, rest, t);
      more := more + rest;
    }
  }

  lemma SearchFinishes(s: State, t: Thread, op: Op) returns (more: seq<Step>)
    requires Consistent(s) && AllAttended(s) && PhaseOf(s, t) == Searching(op)
    ensures Willing(more, t) && PhaseOf(Run(s, more), t) in {Done(op), Failed(op)}
  {
    hide Consistent, AllAttended, Child, Less, Solo, Do, HasRoom;
    SearchInRange(s, t);
    var waits := Clears(s, t, op.key);
    var m := Run(s, waits);
    SearchEnds(m, t, op);
    var last := DESCEND + [CasWrite, CasMark] + FINISH;
    SoloIsRun(m, t, last);
    RunAppend(s, waits, StepsOf(t, last));
    ScriptsWilling(t);
    OthersWilling(waits, t);
    WillingAppend(waits, StepsOf(t, last), t);
    return waits + StepsOf(t, last);
  }

  lemma SearchInRange(s: State, t: Thread)
    requires Consistent(s) && PhaseOf(s, t).Searching?
    ensures InRange(PhaseOf(s, t).op.key, s.place.lo, s.place.hi)
  {
    hide CacheOK, RefsOK, PendingOK, PageMirrors, LogOK, Less;
    ThreadAt(s, t);
  }

  // ---------------------------------------------------------------- why a write fails

  /** The write of a thread is lost: it has failed, or will when its leaf has been put back. */
  ghost predicate Lost(p: Phase) {
    p.Failed? || (p.RollBack? && !p.retry)
  }

  /** Lack of room: in the leaf, in a half of it, or in the parent page. */
  ghost predicate NoRoom(s: State, p: Phase) {
    || (p.Ready? && p.info in s.infos && LeafSet(s.infos[p.info].page, p.op.key, p.op.value).Err?
        && !LeafIsFull(s.infos[p.info].page, |p.op.key|, 0))
    || (p.Marked? && p.mark in s.infos && SplitAndSet(s.infos[p.mark].page, p.op.key, p.op.value).Err?)
    || (p.Halved? && !ParentRoom(s, p.pair.h.splitKey))
  }

  /** A write fails only for lack of room, for lack of memory, or by giving up: never because another was faster. */
  lemma FailsForReason(s: State, t: Thread, a: Action, u: Thread)
    requires Consistent(s) && Lost(PhaseOf(Do(s, t, a), u)) && !Lost(PhaseOf(s, u))
    ensures u == t && (a.GiveUp? || a.NoMemory? || NoRoom(s, PhaseOf(s, t)))
  {
    hide Consistent, LeafSet, SplitAndSet, InsertChild, Child, Position, Splice, NodeChildren, LeafIsFull, ParentRoom;
    if a.LoadParent? && PhaseOf(s, t).Halved? {
      LoadParentEnds(s, t);
    }
    if a.Begin? {
      BeginMoves(s, t, a);
    } else {
      DoMoves(s, t, a);
    }
  }
}
