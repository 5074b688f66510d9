/** Whole runs of the concurrent tree: every interleaving is a sequence of atomic map updates. */
module ConcurrentRuns {
  import opened Bytes
  import opened Pages
  import opened ChildrenCache
  import opened Forest
  import opened SplitTheorems
  import opened ConcurrentTree
  import opened PendingSplits
  import opened ConcurrentProof
  import opened ConcurrentSteps
  import opened ConcurrentPublish

  /** A step is invisible, or it is the step at which the write its thread is working on happens. */
  ghost predicate Linearized(s: State, s': State, t: Thread) {
    var p := PhaseOf(s, t);
    Unchanged(s, s') || ((p.Ready? || p.SawCache?) && TookEffect(s, s', t, p.op))
  }

  /** Phase `q` claims no more than phase `p` has. */
  ghost predicate Weaker(p: Phase, q: Phase) {
    && (Holds(q).None? || Holds(q) == Holds(p)) && (Private(q).None? || Private(q) == Private(p)) && SameHistory(p, q)
  }

  /** Searching and loading only move the thread to a phase that claims no more than it has. */
  lemma SearchPhase(s: State, t: Thread, a: Action)
    requires CacheOK(s) && PhaseOK(s, PhaseOf(s, t))
    requires a.Begin? || a.LoadCache? || a.CheckChild? || a.LoadInfo? || a.LoadAgain?
    ensures var p, q := PhaseOf(s, t), PhaseOf(Do(s, t, a), t);
            (Do(s, t, a) == s || Do(s, t, a) == To(s, t, q)) && PhaseOK(s, q) && Weaker(p, q)
  {
    hide Less, CountLeq, SplitAndSet, CacheOK, Child, Built, PageFresh, CacheFresh, InsertChild;
    var p := PhaseOf(s, t);
    if a.LoadCache? && (p.Searching? || p.Renavigate?) {
      ChildAims(s, p.op);
    }
  }

  /** Giving up and running out of memory lead to a failure, or to a rollback by the thread that holds the leaf. */
  lemma FailPhase(s: State, t: Thread, a: Action)
    requires PhaseOK(s, PhaseOf(s, t)) && (a.GiveUp? || a.NoMemory?)
    ensures var p, q := PhaseOf(s, t), PhaseOf(Do(s, t, a), t);
            (Do(s, t, a) == s || Do(s, t, a) == To(s, t, q)) && PhaseOK(s, q) && Weaker(p, q)
  {
    hide PhaseOK, Weaker, LeafIsFull;
    var p := PhaseOf(s, t);
    WeakerPhases(s, p);
    if p.Marked? || p.Halved? {
      WeakerRollBack(s, p, a.GiveUp?);
    }
  }

  lemma WeakerPhases(s: State, p: Phase)
    requires PhaseOK(s, p)
    ensures Weaker(p, p) && (p.Searching? || p.Ready? ==> PhaseOK(s, Failed(p.op)) && Weaker(p, Failed(p.op)))
  {
    hide Target, Built, PageFresh, CacheFresh;
  }

  lemma WeakerRollBack(s: State, p: Phase, retry: bool)
    requires (p.Marked? || p.Halved?) && PhaseOK(s, p)
    ensures var q := RollBack(p.op, p.leaf, p.info, p.mark, retry); PhaseOK(s, q) && Weaker(p, q)
  {
    hide Target, Built;
  }

  lemma StepSearch(s: State, t: Thread, a: Action)
    requires Consistent(s)
    requires a.Begin? || a.LoadCache? || a.CheckChild? || a.LoadInfo? || a.LoadAgain? || a.GiveUp? || a.NoMemory?
    ensures Consistent(Do(s, t, a)) && Unchanged(s, Do(s, t, a))
  {
    hide PhaseOK, ThreadsOK, LogOK, CacheOK, PageMirrors, RefsOK, PendingOK, Read, Do, Holds, Private, SameHistory;
    ThreadAt(s, t);
    if a.GiveUp? || a.NoMemory? {
      FailPhase(s, t, a);
    } else {
      SearchPhase(s, t, a);
    }
    if Do(s, t, a) != s {
      PhaseChange(s, t, PhaseOf(Do(s, t, a), t));
    }
  }

  lemma StepWrite(s: State, t: Thread)
    requires Consistent(s)
    ensures Consistent(Do(s, t, CasWrite)) && Linearized(s, Do(s, t, CasWrite), t)
  {
    hide Less, CountLeq, LeafGet, LeafSet, ThreadsOK, LogOK, SeparatorsWithin, PageMirrors, PendingOK, Read;
    var p := PhaseOf(s, t);
    ThreadAt(s, t);
    if p.Ready? && p.info in s.infos && Known(s, p.leaf) && !LeafIsFull(s.infos[p.info].page, |p.op.key|, 0) {
      var q := LeafSet(s.infos[p.info].page, p.op.key, p.op.value);
      if q.Err? {
        PhaseChange(s, t, Failed(p.op));
      } else if s.refs[p.leaf] != p.info {
        PhaseChange(s, t, Searching(p.op));
      } else {
        WriteStep(s, t);
      }
    }
  }

  lemma StepMark(s: State, t: Thread)
    requires Consistent(s)
    ensures Consistent(Do(s, t, CasMark)) && Unchanged(s, Do(s, t, CasMark))
  {
    hide Less, CountLeq, LeafGet, ThreadsOK, LogOK, SeparatorsWithin, PageMirrors, PendingOK, Read;
    var p := PhaseOf(s, t);
    ThreadAt(s, t);
    if p.Ready? && p.info in s.infos && Known(s, p.leaf) && LeafIsFull(s.infos[p.info].page, |p.op.key|, 0) {
      if s.refs[p.leaf] != p.info {
        PhaseChange(s, t, Searching(p.op));
      } else {
        MarkStep(s, t);
      }
    }
  }

  /**
   Every step of every thread keeps the invariant and is either invisible or one map update by the
   operation of the thread that takes it.
   */
  lemma StepLinearized(s: State, t: Thread, a: Action)
    requires Consistent(s)
    ensures Consistent(Do(s, t, a)) && Linearized(s, Do(s, t, a), t)
  {
    hide Consistent, Read, LeafGet, InsertChild, CasWriteStep, CasMarkStep, BuildStep, LoadParentStep, CasParentStep,
      LoadChildrenStep, CasChildrenStep;
    var p := PhaseOf(s, t);
    match a
    case CasWrite => StepWrite(s, t);
    case CasMark => StepMark(s, t);
    case BuildHalves => if p.Marked? && p.mark in s.infos { BuildStepOK(s, t); }
    case LoadParent => if p.Halved? { LoadParentOK(s, t); }
    case CasParent => if p.SawParent? { CasParentOK(s, t); }
    case LoadChildren => if p.InParent? { LoadChildrenOK(s, t); }
    case CasChildren => if p.SawCache? { CasChildrenOK(s, t); }
    case CasRedirect => if p.InCache? && Known(s, p.leaf) && p.mark in s.infos { RedirectStep(s, t); }
    case CasRollBack => if p.RollBack? && Known(s, p.leaf) { RollBackStep(s, t); }
    case Begin(_) => StepSearch(s, t, a);
    case LoadCache => StepSearch(s, t, a);
    case CheckChild => StepSearch(s, t, a);
    case LoadInfo => StepSearch(s, t, a);
    case LoadAgain => StepSearch(s, t, a);
    case GiveUp => StepSearch(s, t, a);
    case NoMemory => StepSearch(s, t, a);
  }

  // ---------------------------------------------------------------- runs

  datatype Step = Step(thread: Thread, action: Action)

  function Run(s: State, steps: seq<Step>): State {
    if steps == [] then s
    else Do(Run(s, steps[..|steps| - 1]), steps[|steps| - 1].thread, steps[|steps| - 1].action)
  }

  /** What key `k` maps to after writing `log` on top of `v`. */
  ghost function Replay(v: Option<Value>, log: seq<Event>, k: Key): Option<Value> {
    if log == [] then v
    else
      var e := log[|log| - 1];
      if e.op.key == k then Some(e.op.value) else Replay(v, log[..|log| - 1], k)
  }

  /**
   Over every interleaving: the map read through the cache is the initial map with the committed
   writes replayed one by one, and the writes of each thread that returned success are exactly its
   committed writes in order, save at most one whose redirect is still to be done.
   */
  lemma {:induction false} RunLinearized(s: State, steps: seq<Step>)
    requires Consistent(s) && s.commits == []
    ensures var s' := Run(s, steps);
            && Consistent(s')
            && (forall k :: Read(s', k) == Replay(Read(s, k), s'.commits, k))
            && (forall t :: OpsOf(s'.commits, t) == OpsOf(s'.successes, t) + UnderWay(PhaseOf(s', t)))
  {
    hide Consistent, Read, Do;
    var s' := Run(s, steps);
    if steps != [] {
      var n, e := |steps| - 1, steps[|steps| - 1];
      var m := Run(s, steps[..n]);
      RunLinearized(s, steps[..n]);
      StepLinearized(m, e.thread, e.action);
      if !Unchanged(m, s') {
        assert s'.commits[..|m.commits|] == m.commits;
      }
    }
    LogsAgree(s');
  }

  lemma LogsAgree(s: State)
    requires Consistent(s)
    ensures forall t :: OpsOf(s.commits, t) == OpsOf(s.successes, t) + UnderWay(PhaseOf(s, t))
  {
    hide CacheOK, RefsOK, ThreadsOK, PendingOK, PageMirrors, OpsOf;
  }

  /** A parent with one empty leaf, from which every run may start. */
  function Start(place: Place): State {
    State(place, map[1 := 0], map[0 := Info(EMPTY_LEAF, Normal)], 2, NodePage([], 1, 0), 0, Cache([1], []), 0, map[],
          map[1 := Place(place.lo, place.hi, 0, None)], map[], [], [])
  }

  lemma StartConsistent(place: Place)
    ensures Consistent(Start(place)) && forall k :: Read(Start(place), k) == None
  {
    hide RefsOK, CacheOK, ThreadsOK, PendingOK, PageMirrors, LogOK, Read;
    StartData(place);
    StartThreads(place);
    StartPage(place);
  }

  lemma StartData(place: Place)
    ensures CacheOK(Start(place)) && RefsOK(Start(place)) && PendingOK(Start(place))
            && forall k :: Read(Start(place), k) == None
  {
    hide Less;
    var s := Start(place);
    assert EMPTY_LEAF.entries == [] && RefOK(s, 1);
    forall k ensures Read(s, k) == None {
      assert InfoOf(s, 1).page.entries == [];
    }
  }

  lemma StartThreads(place: Place)
    ensures ThreadsOK(Start(place)) && LogOK(Start(place))
  {
    forall t ensures PhaseOf(Start(place), t).Idle? {}
  }

  lemma StartPage(place: Place)
    ensures |Start(place).cache.children| == |Start(place).cache.separators| + 1 && PageMirrors(Start(place))
  {
    var s := Start(place);
    assert s.cache.children[..0] == [];
    assert ExpandChildren(s.cache.children[..0], map[]) == [];
    assert NodeChildren(s.page) == [1];
  }
}
