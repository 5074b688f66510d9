/**
 Concurrent reads beside the writers and splitters of ConcurrentTree (storage_adapter.go, search.go): a
 reader loads the cache, follows a redirect, loads the page info of the leaf and reads its page, and any
 writer may take steps in between. It returns what the map held at some time between its start and its end.
 */
module ConcurrentReads {
  import opened Bytes
  import opened Pages
  import opened ChildrenCache
  import opened Forest
  import opened SplitTheorems
  import opened ConcurrentTree
  import opened ConcurrentProof
  import opened ConcurrentSteps
  import opened ConcurrentPublish
  import opened ConcurrentRuns

  /** A reader; `from` and `upTo` are history: how many writes had taken effect when it began and when it returned. */
  datatype Reader =
    | Resting
    | Starting(key: Key, from: nat)                                  // about to load the cache
    | AtChild(key: Key, leaf: RefId, from: nat)                      // child chosen, not yet checked for a redirect
    | Again(key: Key, from: nat)                                     // child was redirected
    | AtLeaf(key: Key, leaf: RefId, from: nat)                       // searchPath has returned
    | HasInfo(key: Key, info: InfoId, from: nat)                     // the page info is loaded
    | Returned(key: Key, value: Option<Value>, from: nat, upTo: nat)

  datatype System = System(tree: State, readers: map<Thread, Reader>)

  datatype ReadAction = BeginRead(key: Key) | ReadCache | CheckRedirect | ReadInfo | ReadPage

  datatype Move = Write(writer: Thread, action: Action) | Read_(reader: Thread, read: ReadAction)

  function ReaderOf(y: System, t: Thread): Reader {
    if t in y.readers then y.readers[t] else Resting
  }

  /** One step of a reader; the tree is not changed. */
  ghost function ReadStep(s: State, r: Reader, a: ReadAction): Reader {
    match a
    case BeginRead(key) =>
      if (r.Resting? || r.Returned?) && InRange(key, s.place.lo, s.place.hi) then Starting(key, |s.commits|) else r
    case ReadCache =>
      if r.Starting? then AtChild(r.key, Child(s, r.key), r.from)
      else if r.Again? then AtLeaf(r.key, Child(s, r.key), r.from)
      else r
    case CheckRedirect =>
      if !r.AtChild? || !Known(s, r.leaf) then r
      else if InfoOf(s, r.leaf).state == Redirect then Again(r.key, r.from)
      else AtLeaf(r.key, r.leaf, r.from)
    case ReadInfo => if r.AtLeaf? && Known(s, r.leaf) then HasInfo(r.key, s.refs[r.leaf], r.from) else r
    case ReadPage =>
      if r.HasInfo? && r.info in s.infos
        then Returned(r.key, LeafGet(s.infos[r.info].page.entries, r.key), r.from, |s.commits|)
      else r
  }

  ghost function Step(y: System, m: Move): System {
    match m
    case Write(t, a) => y.(tree := Do(y.tree, t, a))
    case Read_(t, a) => y.(readers := y.readers[t := ReadStep(y.tree, ReaderOf(y, t), a)])
  }

  ghost function RunMoves(s: State, moves: seq<Move>): System {
    if moves == [] then System(s, map[]) else Step(RunMoves(s, moves[..|moves| - 1]), moves[|moves| - 1])
  }

  // ---------------------------------------------------------------- what a write step leaves alone

  ghost function PageOf(s: State, r: RefId): LeafPage
    requires r in s.refs && s.refs[r] in s.infos
  {
    s.infos[s.refs[r]].page
  }

  /** Nothing a reader may hold is lost: records stay, and a leaf outside the cache keeps its page. */
  ghost predicate Keeps(s: State, s': State) {
    && s.commits <= s'.commits && s'.place == s.place
    && (forall i :: i in s.infos ==> i in s'.infos && s'.infos[i] == s.infos[i])
    && (forall r {:trigger KeepsRef(s, s', r)} :: r in s.refs ==> KeepsRef(s, s', r))
  }

  ghost predicate KeepsRef(s: State, s': State, r: RefId)
    requires r in s.refs
  {
    && r in s'.refs && (r in s.places ==> r in s'.places && s'.places[r] == s.places[r])
    && s.refs[r] in s.infos && s'.refs[r] in s'.infos
    && (r !in s.cache.children ==> r !in s'.cache.children)
    && (r !in s'.cache.children ==> PageOf(s', r) == PageOf(s, r))
  }

  lemma KeepsSame(s: State, s': State)
    requires RefsOK(s) && s'.refs == s.refs && s'.infos == s.infos && s'.places == s.places && s'.cache == s.cache
    requires s'.place == s.place && s.commits <= s'.commits
    ensures Keeps(s, s')
  {
    hide PageOK;
    forall r | r in s.refs ensures KeepsRef(s, s', r) {
      assert RefOK(s, r);
    }
  }

  /** Putting another record behind a leaf of the cache, or one with the same page behind any leaf. */
  lemma KeepsSwap(s: State, s': State, leaf: RefId)
    requires RefsOK(s) && leaf in s.refs && s'.refs.Keys == s.refs.Keys
             && (forall x :: x in s.refs && x != leaf ==> s'.refs[x] == s.refs[x])
    requires forall i :: i in s.infos ==> i in s'.infos && s'.infos[i] == s.infos[i]
    requires s'.refs[leaf] in s'.infos && s'.places == s.places && s'.cache == s.cache && s'.place == s.place
             && s.commits <= s'.commits
    requires leaf in s.cache.children
             || (s.refs[leaf] in s.infos && s'.infos[s'.refs[leaf]].page == s.infos[s.refs[leaf]].page)
    ensures Keeps(s, s')
  {
    hide PageOK;
    forall r | r in s.refs ensures KeepsRef(s, s', r) {
      assert RefOK(s, r);
    }
  }

  lemma KeepsPublish(s: State, s': State, i: nat, pair: Pair)
    requires RefsOK(s) && CacheOK(s) && Published(s, s', i, pair) && s.commits <= s'.commits
    ensures Keeps(s, s')
  {
    hide PageOK, Splice, SeparatorsWithin;
    CachedDistinct(s);
    SpliceMembers(s.cache, i, pair.left, pair.right, pair.h.splitKey);
    forall r | r in s.refs ensures KeepsRef(s, s', r) {
      assert RefOK(s, r);
    }
  }

  lemma WriteKeeps(s: State, t: Thread, p: Phase)
    requires RefsOK(s) && p.Ready? && PhaseOK(s, p) && Known(s, p.leaf) && p.info in s.infos
    ensures Keeps(s, CasWriteStep(s, t, p)) && Keeps(s, CasMarkStep(s, t, p))
  {
    hide RefsOK, LeafSet, Keeps, Less, LeafIsFull;
    InfosBelow(s);
    NormalIsCached(s, p.leaf);
    SwapKeeps(s, CasWriteStep(s, t, p), p.leaf);
    SwapKeeps(s, CasMarkStep(s, t, p), p.leaf);
  }

  /** The record behind a leaf in its normal state is replaced by a new one, or nothing is. */
  lemma SwapKeeps(s: State, s': State, leaf: RefId)
    requires RefsOK(s) && leaf in s.refs && s'.places == s.places && s'.cache == s.cache && s'.place == s.place
             && s.commits <= s'.commits
    requires (s'.refs == s.refs && s'.infos == s.infos)
             || (leaf in s.cache.children && s'.refs == s.refs[leaf := s.next] && s.next in s'.infos
                 && s'.infos == s.infos[s.next := s'.infos[s.next]])
    ensures Keeps(s, s')
  {
    hide RefsOK, Keeps;
    InfosBelow(s);
    if s'.refs == s.refs && s'.infos == s.infos {
      KeepsSame(s, s');
    } else {
      KeepsSwap(s, s', leaf);
    }
  }

  lemma RedirectKeeps(s: State, t: Thread, p: Phase)
    requires RefsOK(s) && p.InCache? && PhaseOK(s, p) && Known(s, p.leaf) && p.mark in s.infos
    ensures Keeps(s, CasRedirectStep(s, t, p))
  {
    hide RefsOK, Keeps, Less;
    InfosBelow(s);
    KeepsSwap(s, CasRedirectStep(s, t, p), p.leaf);
  }

  lemma RollBackKeeps(s: State, t: Thread, p: Phase)
    requires RefsOK(s) && p.RollBack? && PhaseOK(s, p) && Known(s, p.leaf)
    ensures Keeps(s, CasRollBackStep(s, t, p))
  {
    hide RefsOK, Keeps, Less;
    KeepsSwap(s, CasRollBackStep(s, t, p), p.leaf);
  }

  lemma ChildrenKeeps(s: State, t: Thread, p: Phase)
    requires RefsOK(s) && CacheOK(s) && p.SawCache? && PhaseOK(s, p)
    ensures Keeps(s, CasChildrenStep(s, t, p))
  {
    hide RefsOK, CacheOK, PhaseOK, Keeps, Position, Splice;
    var s' := CasChildrenStep(s, t, p);
    if s.cacheVersion == p.seen {
      SawCacheFacts(s, p);
      InstallPublishes(s, s', t, p);
      KeepsPublish(s, s', Position(s.cache.children, p.leaf).value, p.pair);
    } else {
      KeepsSame(s, s');
    }
  }

  /** The references, their records and the cache are as before. */
  ghost predicate DataSame(s: State, s': State) {
    && s'.refs == s.refs && s'.infos == s.infos && s'.places == s.places && s'.cache == s.cache && s'.place == s.place
    && s'.commits == s.commits
  }

  lemma PrivateSteps(s: State, t: Thread, a: Action)
    requires a.BuildHalves? || a.LoadParent? || a.CasParent? || a.LoadChildren?
    ensures DataSame(s, Do(s, t, a))
  {
    hide InsertChild, SplitAndSet, Splice, Position;
    var p := PhaseOf(s, t);
    match a
    case BuildHalves => assert p.Marked? && p.mark in s.infos ==> DataSame(s, BuildStep(s, t, p));
    case LoadParent => assert p.Halved? ==> DataSame(s, LoadParentStep(s, t, p));
    case CasParent => assert p.SawParent? ==> DataSame(s, CasParentStep(s, t, p));
    case LoadChildren => assert p.InParent? ==> DataSame(s, LoadChildrenStep(s, t, p));
  }

  /** Every step of a writer or splitter keeps what a reader may hold. */
  lemma StepKeeps(s: State, t: Thread, a: Action)
    requires Consistent(s)
    ensures Keeps(s, Do(s, t, a))
  {
    hide CacheOK, RefsOK, ThreadsOK, PendingOK, PageMirrors, LogOK, PhaseOK, Keeps, Do;
    ThreadAt(s, t);
    if a.CasWrite? || a.CasMark? || a.CasRedirect? || a.CasRollBack? || a.CasChildren? {
      CasKeeps(s, t, a);
    } else {
      if a.BuildHalves? || a.LoadParent? || a.CasParent? || a.LoadChildren? {
        PrivateSteps(s, t, a);
      } else if a.GiveUp? || a.NoMemory? {
        FailPhase(s, t, a);
      } else {
        SearchPhase(s, t, a);
      }
      KeepsSame(s, Do(s, t, a));
    }
  }

  lemma CasKeeps(s: State, t: Thread, a: Action)
    requires RefsOK(s) && CacheOK(s) && PhaseOK(s, PhaseOf(s, t))
    requires a.CasWrite? || a.CasMark? || a.CasRedirect? || a.CasRollBack? || a.CasChildren?
    ensures Keeps(s, Do(s, t, a))
  {
    hide CacheOK, RefsOK, PhaseOK, Keeps, CasWriteStep, CasMarkStep, CasRedirectStep, CasRollBackStep, CasChildrenStep;
    var p := PhaseOf(s, t);
    if (a.CasWrite? || a.CasMark?) && p.Ready? && p.info in s.infos && Known(s, p.leaf) {
      WriteKeeps(s, t, p);
    } else if a.CasRedirect? && p.InCache? && Known(s, p.leaf) && p.mark in s.infos {
      RedirectKeeps(s, t, p);
    } else if a.CasRollBack? && p.RollBack? && Known(s, p.leaf) {
      RollBackKeeps(s, t, p);
    } else if a.CasChildren? && p.SawCache? {
      ChildrenKeeps(s, t, p);
    } else {
      KeepsSame(s, s);
    }
  }

  lemma InfosBelow(s: State)
    requires RefsOK(s)
    ensures forall i :: i in s.infos ==> i < s.next
  {
  }

  lemma NormalIsCached(s: State, leaf: RefId)
    requires RefsOK(s) && Known(s, leaf)
    ensures InfoOf(s, leaf).state == Normal ==> leaf in s.cache.children
  {
    hide PageOK;
    assert RefOK(s, leaf);
  }

  // ---------------------------------------------------------------- readers

  /** The map held `v` at `key` after some of the writes `from` to `upTo`. */
  ghost predicate Held(s0: State, log: seq<Event>, key: Key, v: Option<Value>, from: nat, upTo: nat) {
    upTo <= |log| && exists j: nat :: from <= j <= upTo && v == Replay(Read(s0, key), log[..j], key)
  }

  /** The map read through the cache is the initial one with the committed writes replayed. */
  ghost predicate Replays(s0: State, s: State) {
    forall k :: Read(s, k) == Replay(Read(s0, k), s.commits, k)
  }

  ghost predicate LeafOfKey(s0: State, s: State, key: Key, leaf: RefId, from: nat) {
    && Known(s, leaf) && leaf in s.places && InRange(key, s.places[leaf].lo, s.places[leaf].hi)
    && (leaf in s.cache.children || Held(s0, s.commits, key, LeafGet(PageOf(s, leaf).entries, key), from, |s.commits|))
  }

  ghost predicate ReaderOK(s0: State, s: State, r: Reader) {
    match r
    case Resting => true
    case Starting(key, from) => from <= |s.commits| && InRange(key, s.place.lo, s.place.hi)
    case Again(key, from) => from <= |s.commits| && InRange(key, s.place.lo, s.place.hi)
    case AtChild(key, leaf, from) => from <= |s.commits| && InRange(key, s.place.lo, s.place.hi)
      && LeafOfKey(s0, s, key, leaf, from)
    case AtLeaf(key, leaf, from) => from <= |s.commits| && LeafOfKey(s0, s, key, leaf, from)
    case HasInfo(key, info, from) =>
      info in s.infos && Held(s0, s.commits, key, LeafGet(s.infos[info].page.entries, key), from, |s.commits|)
    case Returned(key, value, from, upTo) => Held(s0, s.commits, key, value, from, upTo)
  }

  lemma HeldLater(s0: State, log: seq<Event>, log': seq<Event>, key: Key, v: Option<Value>, from: nat, upTo: nat,
                  upTo': nat)
    requires Held(s0, log, key, v, from, upTo) && log <= log' && upTo <= upTo' <= |log'|
    ensures Held(s0, log', key, v, from, upTo')
  {
    hide Read, Replay;
    var j: nat :| from <= j <= upTo && v == Replay(Read(s0, key), log[..j], key);
    assert log'[..j] == log[..j];
  }

  lemma HeldStays(s0: State, log: seq<Event>, log': seq<Event>, key: Key, v: Option<Value>, from: nat, upTo: nat)
    requires Held(s0, log, key, v, from, upTo) && log <= log'
    ensures Held(s0, log', key, v, from, upTo)
  {
    hide Read, Replay;
    HeldLater(s0, log, log', key, v, from, upTo, upTo);
  }

  lemma HeldNow(s0: State, s: State, key: Key, from: nat)
    requires Replays(s0, s) && from <= |s.commits|
    ensures Held(s0, s.commits, key, Read(s, key), from, |s.commits|)
  {
    hide Read, Replay;
    assert s.commits[..|s.commits|] == s.commits;
  }

  /** A leaf of the cache is where its keys are read. */
  lemma CachedRead(s: State, leaf: RefId, key: Key)
    requires CacheOK(s) && Known(s, leaf) && leaf in s.cache.children && leaf in s.places
    requires InRange(key, s.places[leaf].lo, s.places[leaf].hi)
    ensures Read(s, key) == LeafGet(PageOf(s, leaf).entries, key)
  {
    hide CacheOK, LeafGet, Less, CountLeq, Child;
    CachedRoutes(s, leaf, key);
  }

  lemma LeafKept(s0: State, s: State, s': State, key: Key, leaf: RefId, from: nat)
    requires Consistent(s) && Replays(s0, s) && Keeps(s, s') && LeafOfKey(s0, s, key, leaf, from) && from <= |s.commits|
    ensures LeafOfKey(s0, s', key, leaf, from)
  {
    hide RefsOK, ThreadsOK, PendingOK, PageMirrors, LogOK, LeafGet, Held, Replays, Read, CacheOK, Less;
    assert KeepsRef(s, s', leaf);
    if leaf !in s'.cache.children {
      var v := LeafGet(PageOf(s, leaf).entries, key);
      if leaf in s.cache.children {
        CachedRead(s, leaf, key);
        HeldNow(s0, s, key, from);
      }
      HeldLater(s0, s.commits, s'.commits, key, v, from, |s.commits|, |s'.commits|);
    }
  }

  /** A step of a writer does not disturb a reader. */
  lemma ReaderKept(s0: State, s: State, s': State, r: Reader)
    requires Consistent(s) && Replays(s0, s) && Keeps(s, s') && ReaderOK(s0, s, r)
    ensures ReaderOK(s0, s', r)
  {
    hide Consistent, LeafGet, Held, Replays, LeafOfKey, KeepsRef, Less;
    match r
    case AtChild(key, leaf, from) => LeafKept(s0, s, s', key, leaf, from);
    case AtLeaf(key, leaf, from) => LeafKept(s0, s, s', key, leaf, from);
    case HasInfo(key, info, from) =>
      HeldLater(s0, s.commits, s'.commits, key, LeafGet(s.infos[info].page.entries, key), from, |s.commits|,
                |s'.commits|);
    case Returned(key, value, from, upTo) => HeldStays(s0, s.commits, s'.commits, key, value, from, upTo);
    case _ =>
  }

  /** A reader's own steps. */
  lemma ReadStepOK(s0: State, s: State, r: Reader, a: ReadAction)
    requires Consistent(s) && Replays(s0, s) && ReaderOK(s0, s, r)
    ensures ReaderOK(s0, s, ReadStep(s, r, a))
  {
    hide RefsOK, ThreadsOK, PendingOK, PageMirrors, LogOK, CacheOK, LeafGet, Held, Replays, Read, Less, Child;
    if a.ReadCache? && (r.Starting? || r.Again?) {
      ChildKnown(s, r.key);
    } else if a.ReadInfo? && r.AtLeaf? && Known(s, r.leaf) && r.leaf in s.cache.children {
      CachedRead(s, r.leaf, r.key);
      HeldNow(s0, s, r.key, r.from);
    }
  }

  lemma ChildKnown(s: State, key: Key)
    requires CacheOK(s) && RefsOK(s) && InRange(key, s.place.lo, s.place.hi)
    ensures var leaf := Child(s, key);
            Known(s, leaf) && leaf in s.places && InRange(key, s.places[leaf].lo, s.places[leaf].hi)
              && leaf in s.cache.children
  {
    hide CacheOK, PageOK, Less, Child;
    ChildAims(s, Op(key, []));
    assert RefOK(s, Child(s, key));
  }

  // ---------------------------------------------------------------- runs

  ghost predicate SystemOK(s0: State, y: System) {
    Consistent(y.tree) && Replays(s0, y.tree)
      && forall t {:trigger ReaderOf(y, t)} :: ReaderOK(s0, y.tree, ReaderOf(y, t))
  }

  lemma MoveOK(s0: State, y: System, m: Move)
    requires SystemOK(s0, y)
    ensures SystemOK(s0, Step(y, m))
  {
    hide Consistent, ReaderOK, Keeps, Do, ReadStep;
    var y' := Step(y, m);
    match m
    case Write(t, a) =>
      StepLinearized(y.tree, t, a);
      StepKeeps(y.tree, t, a);
      StepReplays(s0, y.tree, y'.tree, t);
      forall u ensures ReaderOK(s0, y'.tree, ReaderOf(y', u)) {
        ReaderKept(s0, y.tree, y'.tree, ReaderOf(y, u));
      }
    case Read_(t, a) =>
      ReadStepOK(s0, y.tree, ReaderOf(y, t), a);
      forall u ensures ReaderOK(s0, y'.tree, ReaderOf(y', u)) {
        assert u != t ==> ReaderOf(y', u) == ReaderOf(y, u);
      }
  }

  lemma StepReplays(s0: State, s: State, s': State, t: Thread)
    requires Replays(s0, s) && Linearized(s, s', t)
    ensures Replays(s0, s')
  {
    hide Read;
    if !Unchanged(s, s') {
      assert s'.commits[..|s.commits|] == s.commits;
    }
  }

  /**
   Over every interleaving of writers, splitters and readers: a read that has returned gave the value its
   key had in the map at some time between its start and its end.
   */
  lemma {:induction false} ReadsLinearized(s0: State, moves: seq<Move>)
    requires Consistent(s0) && s0.commits == []
    ensures SystemOK(s0, RunMoves(s0, moves))
    ensures var y := RunMoves(s0, moves);
            forall t :: var r := ReaderOf(y, t);
              r.Returned? ==> r.from <= r.upTo && Held(s0, y.tree.commits, r.key, r.value, r.from, r.upTo)
  {
    hide Consistent, Replays, Step, Held;
    var y := RunMoves(s0, moves);
    if moves == [] {
      StartReplays(s0);
    } else {
      ReadsLinearized(s0, moves[..|moves| - 1]);
      MoveOK(s0, RunMoves(s0, moves[..|moves| - 1]), moves[|moves| - 1]);
    }
    forall t ensures var r := ReaderOf(y, t); r.Returned? ==>
      r.from <= r.upTo && Held(s0, y.tree.commits, r.key, r.value, r.from, r.upTo) {
      HeldOrder(s0, y.tree, ReaderOf(y, t));
    }
  }

  lemma HeldOrder(s0: State, s: State, r: Reader)
    requires ReaderOK(s0, s, r)
    ensures r.Returned? ==> r.from <= r.upTo && Held(s0, s.commits, r.key, r.value, r.from, r.upTo)
  {
  }

  lemma StartReplays(s0: State)
    requires s0.commits == []
    ensures Replays(s0, s0)
  {
    hide Read;
  }

  // ---------------------------------------------------------------- a read alone

  /** The steps of one read; the cache is loaded a second time only after a redirect. */
  ghost function ReadScript(key: Key): seq<ReadAction> {
    [BeginRead(key), ReadCache, CheckRedirect, ReadCache, ReadInfo, ReadPage]
  }

  ghost function ReadAlone(s: State, r: Reader, actions: seq<ReadAction>): Reader
    decreases |actions|
  {
    if actions == [] then r else ReadAlone(s, ReadStep(s, r, actions[0]), actions[1..])
  }

  /** A read that is not disturbed comes to an end with what the map holds, also at a leaf that is being split. */
  lemma SoloRead(s: State, r: Reader, key: Key)
    requires Consistent(s) && (r.Resting? || r.Returned?) && InRange(key, s.place.lo, s.place.hi)
    ensures ReadAlone(s, r, ReadScript(key)) == Returned(key, Read(s, key), |s.commits|, |s.commits|)
  {
    hide RefsOK, ThreadsOK, PendingOK, PageMirrors, LogOK, CacheOK, LeafGet, Less, Child, ReadAlone;
    ChildKnown(s, key);
    var r2 := ReadStep(s, ReadStep(s, r, BeginRead(key)), ReadCache);
    var r4 := ReadStep(s, ReadStep(s, r2, CheckRedirect), ReadCache);
    assert r4 == AtLeaf(key, Child(s, key), |s.commits|);
    AloneSix(s, r, BeginRead(key), ReadCache, CheckRedirect, ReadCache, ReadInfo, ReadPage);
  }

  lemma AloneSix(s: State, r: Reader, a: ReadAction, b: ReadAction, c: ReadAction, d: ReadAction, e: ReadAction,
                 f: ReadAction)
    ensures ReadAlone(s, r, [a, b, c, d, e, f])
            == ReadStep(s, ReadStep(s, ReadStep(s, ReadStep(s, ReadStep(s, ReadStep(s, r, a), b), c), d), e), f)
  {
    hide ReadStep;
    AloneThree(s, r, a, b, c, [d, e, f]);
    AloneThree(s, ReadStep(s, ReadStep(s, ReadStep(s, r, a), b), c), d, e, f, []);
    assert [a, b, c] + [d, e, f] == [a, b, c, d, e, f] && [d, e, f] + [] == [d, e, f];
  }

  lemma AloneThree(s: State, r: Reader, a: ReadAction, b: ReadAction, c: ReadAction, rest: seq<ReadAction>)
    ensures ReadAlone(s, r, [a, b, c] + rest) == ReadAlone(s, ReadStep(s, ReadStep(s, ReadStep(s, r, a), b), c), rest)
  {
    hide ReadStep;
    assert ([a, b, c] + rest)[1..] == [b, c] + rest && ([b, c] + rest)[1..] == [c] + rest && ([c] + rest)[1..] == rest;
    var m := ReadStep(s, r, a);
    assert ReadAlone(s, m, [b, c] + rest) == ReadAlone(s, ReadStep(s, m, b), [c] + rest);
  }

  /** A read comes to an end from wherever it stands, also where its child was redirected meanwhile. */
  lemma ReadFinishes(s0: State, s: State, r: Reader)
    requires Consistent(s) && ReaderOK(s0, s, r) && !r.Resting?
    ensures var q := ReadStep(s, ReadStep(s, ReadStep(s, r, ReadCache), CheckRedirect), ReadCache);
            var v := ReadStep(s, ReadStep(s, q, ReadInfo), ReadPage);
            v.Returned? && v.key == r.key && v.from == r.from
  {
    hide RefsOK, ThreadsOK, PendingOK, PageMirrors, LogOK, CacheOK, LeafGet, Less, Child, Held;
    if r.Starting? || r.Again? || r.AtChild? {
      ReaderInRange(s0, s, r);
      ChildKnown(s, r.key);
    }
  }

  lemma ReaderInRange(s0: State, s: State, r: Reader)
    requires ReaderOK(s0, s, r) && (r.Starting? || r.Again? || r.AtChild?)
    ensures InRange(r.key, s.place.lo, s.place.hi)
  {
  }
}
