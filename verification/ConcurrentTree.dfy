/**
 Concurrent copy-on-write leaf writers and leaf splitters under one internal page (operations.go,
 search.go), as a machine of atomic loads and compare-and-swaps. Any number of threads take steps
 in any order. The internal page itself is not split.

 A page reference is identified by its immutable page ID. A page info is an immutable record with an
 identity, so that a compare-and-swap succeeds only on the very record that was loaded; a rollback
 puts back a record that other threads may have loaded before.
 */
module ConcurrentTree {
  import opened Bytes
  import opened Pages
  import opened ChildrenCache
  import opened Forest
  import opened SplitTheorems

  type InfoId = nat
  type Thread = nat

  datatype Info = Info(page: LeafPage, state: NodeState)
  datatype Op = Op(key: Key, value: Value)

  /** The halves a splitter has built privately, and the references it made for them. */
  datatype Pair = Pair(h: LeafHalves, left: RefId, right: RefId)

  datatype Phase =
    | Idle
    | Searching(op: Op)                                                            // about to load the cache
    | Found(op: Op,
            leaf: RefId)                                                   // child not yet checked for a redirect
    | Renavigate(op: Op)                                                           // child was redirected
    | Located(op: Op, leaf: RefId)                                                 // searchPath has returned
    | Loaded(op: Op, leaf: RefId, info: InfoId)                                    // oldInfo is read
    | Ready(op: Op, leaf: RefId, info: InfoId)                                     // oldInfo is read again, unchanged
    | Marked(op: Op, leaf: RefId, info: InfoId, mark: InfoId)                      // leaf is marked as splitting
    | Halved(op: Op, leaf: RefId, info: InfoId, mark: InfoId, pair: Pair)          // halves built, write applied to one
    | SawParent(op: Op, leaf: RefId, info: InfoId, mark: InfoId, pair: Pair, seen: nat, page: NodePage)
    | InParent(op: Op, leaf: RefId, mark: InfoId, pair: Pair)                      // parent page replaced
    | SawCache(op: Op, leaf: RefId, mark: InfoId, pair: Pair, seen: nat, cache: Cache)
    | InCache(op: Op, leaf: RefId, mark: InfoId)                                   // cache replaced
    | RollBack(op: Op, leaf: RefId, info: InfoId, mark: InfoId, retry: bool)
    | Done(op: Op)
    | Failed(op: Op)

  datatype Event = Event(thread: Thread, op: Op)

  datatype State = State(
    place: Place,                       // key range of the parent
    refs: map<RefId, InfoId>,           // pInfo of every leaf reference that was ever in the cache
    infos: map<InfoId, Info>,
    next: nat,                          // next unused info and page ID
    page: NodePage, pageVersion: nat,   // physical parent page behind the parent's pInfo
    cache: Cache, cacheVersion: nat,    // children cache of the parent
    threads: map<Thread, Phase>,
    places: map<RefId, Place>,          // history: key range of every reference
    pending: map<RefId, Pair>,          // history: splits that are in the page and not yet in the cache
    commits: seq<Event>,                // history: writes in the order they took effect
    successes: seq<Event>)              // history: writes that returned without error

  datatype Action =
    | Begin(op: Op) | LoadCache | CheckChild | LoadInfo | LoadAgain | CasWrite | CasMark | BuildHalves
    | LoadParent | CasParent | LoadChildren | CasChildren | CasRedirect | CasRollBack | GiveUp
    | NoMemory    // an allocation fails: of the written copy, of the halves, or of the parent page

  function PhaseOf(s: State, t: Thread): Phase {
    if t in s.threads then s.threads[t] else Idle
  }

  function To(s: State, t: Thread, p: Phase): State {
    s.(threads := s.threads[t := p])
  }

  function Child(s: State, key: Key): RefId {
    var i := CountLeq(s.cache.separators, key);
    if i < |s.cache.children| then s.cache.children[i] else 0
  }

  /** First position of `id` among the page's children. */
  function Position(cs: seq<nat>, id: nat): (r: Option<nat>)
    ensures r.None? <==> id !in cs
    ensures r.Some? ==> r.value < |cs| && cs[r.value] == id && id !in cs[..r.value]
  {
    if cs == [] then None
    else if cs[0] == id then Some(0)
    else
      var r := Position(cs[1..], id);
      assert cs == [cs[0]] + cs[1..];
      if r.None? then None else Some(r.value + 1)
  }

  /** One atomic step of thread `t`; a step that does not fit the thread's phase changes nothing. */
  function Do(s: State, t: Thread, a: Action): State {
    var p := PhaseOf(s, t);
    match a
    case Begin(op) =>
      if (p.Idle? || p.Done? || p.Failed?) && InRange(op.key, s.place.lo, s.place.hi) then To(s, t, Searching(op))
        else s
    case LoadCache =>
      if p.Searching? then To(s, t, Found(p.op, Child(s, p.op.key)))
      else if p.Renavigate? then To(s, t, Located(p.op, Child(s, p.op.key)))
      else s
    case CheckChild =>
      if !p.Found? || !Known(s, p.leaf) then s
      else To(s, t, if InfoOf(s, p.leaf).state == Redirect then Renavigate(p.op) else Located(p.op, p.leaf))
    case LoadInfo =>
      if !p.Located? || !Known(s, p.leaf) then s
      else if InfoOf(s, p.leaf).state != Normal then To(s, t, Searching(p.op))
      else To(s, t, Loaded(p.op, p.leaf, s.refs[p.leaf]))
    case LoadAgain =>
      if !p.Loaded? || !Known(s, p.leaf) then s
      else To(s, t, if s.refs[p.leaf] == p.info then Ready(p.op, p.leaf, p.info) else Searching(p.op))
    case CasWrite => if p.Ready? && p.info in s.infos && Known(s, p.leaf) then CasWriteStep(s, t, p) else s
    case CasMark => if p.Ready? && p.info in s.infos && Known(s, p.leaf) then CasMarkStep(s, t, p) else s
    case BuildHalves => if p.Marked? && p.mark in s.infos then BuildStep(s, t, p) else s
    case LoadParent => if p.Halved? then LoadParentStep(s, t, p) else s
    case CasParent => if p.SawParent? then CasParentStep(s, t, p) else s
    case LoadChildren => if p.InParent? then LoadChildrenStep(s, t, p) else s
    case CasChildren => if p.SawCache? then CasChildrenStep(s, t, p) else s
    case CasRedirect => if p.InCache? && Known(s, p.leaf) && p.mark in s.infos then CasRedirectStep(s, t, p) else s
    case CasRollBack => if p.RollBack? && Known(s, p.leaf) then CasRollBackStep(s, t, p) else s
    case GiveUp =>
      if p.Searching? then To(s, t, Failed(p.op))
      else if p.Halved? then To(s, t, RollBack(p.op, p.leaf, p.info, p.mark, true))
      else s
    case NoMemory =>
      if p.Ready? && p.info in s.infos && !LeafIsFull(s.infos[p.info].page, |p.op.key|, 0) then To(s, t, Failed(p.op))
      else if p.Marked? || p.Halved? then To(s, t, RollBack(p.op, p.leaf, p.info, p.mark, false))
      else s
  }

  predicate Known(s: State, r: RefId) {
    r in s.refs && s.refs[r] in s.infos
  }

  function InfoOf(s: State, r: RefId): Info
    requires Known(s, r)
  {
    s.infos[s.refs[r]]
  }

  /** Replace the page info of `r` by a new record. */
  function Swap(s: State, r: RefId, info: Info): State {
    s.(refs := s.refs[r := s.next], infos := s.infos[s.next := info], next := s.next + 1)
  }

  function Commit(s: State, t: Thread, op: Op): State {
    s.(commits := s.commits + [Event(t, op)])
  }

  function Succeed(s: State, t: Thread, op: Op): State {
    s.(successes := s.successes + [Event(t, op)])
  }

  /** The non-split path: build the new page, then publish it with one compare-and-swap. */
  function CasWriteStep(s: State, t: Thread, p: Phase): State
    requires p.Ready? && p.info in s.infos && Known(s, p.leaf)
  {
    var page := s.infos[p.info].page;
    if LeafIsFull(page, |p.op.key|, 0) then s
    else
      var q := LeafSet(page, p.op.key, p.op.value);
      if q.Err? then To(s, t, Failed(p.op))
      else if s.refs[p.leaf] != p.info then To(s, t, Searching(p.op))
      else Succeed(Commit(To(Swap(s, p.leaf, Info(q.value, Normal)), t, Done(p.op)), t, p.op), t, p.op)
  }

  function CasMarkStep(s: State, t: Thread, p: Phase): State
    requires p.Ready? && p.info in s.infos && Known(s, p.leaf)
  {
    var page := s.infos[p.info].page;
    if !LeafIsFull(page, |p.op.key|, 0) then s
    else if s.refs[p.leaf] != p.info then To(s, t, Searching(p.op))
    else To(Swap(s, p.leaf, Info(page, Splitting)), t, Marked(p.op, p.leaf, p.info, s.next))
  }

  /** Split the page, apply the write to one half, and make references for both. */
  function BuildStep(s: State, t: Thread, p: Phase): State
    requires p.Marked? && p.mark in s.infos
  {
    var h := SplitAndSet(s.infos[p.mark].page, p.op.key, p.op.value);
    if h.Err? then To(s, t, RollBack(p.op, p.leaf, p.info, p.mark, false))
    else To(s.(next := s.next + 2), t, Halved(p.op, p.leaf, p.info, p.mark, Pair(h.value, s.next, s.next + 1)))
  }

  /**
   `handleParentCASWithSpin` up to its compare-and-swap. When the page does not hold the child the code
   falls back on the position from the descent; `LeafInParent` shows that this never happens.
   */
  function LoadParentStep(s: State, t: Thread, p: Phase): State
    requires p.Halved?
  {
    var i := Position(NodeChildren(s.page), p.leaf);
    var q := InsertChild(s.page, if i.Some? then i.value else -1, p.pair.h.splitKey, p.pair.left, p.pair.right);
    if q.Err? then To(s, t, RollBack(p.op, p.leaf, p.info, p.mark, false))
    else To(s, t, SawParent(p.op, p.leaf, p.info, p.mark, p.pair, s.pageVersion, q.value))
  }

  function CasParentStep(s: State, t: Thread, p: Phase): State
    requires p.SawParent?
  {
    if s.pageVersion != p.seen then To(s, t, Halved(p.op, p.leaf, p.info, p.mark, p.pair))
    else To(s.(page := p.page, pageVersion := s.pageVersion + 1, pending := s.pending[p.leaf := p.pair]),
            t, InParent(p.op, p.leaf, p.mark, p.pair))
  }

  /** `updateChildrenCache` up to its compare-and-swap; a missing child ends it without a change. */
  function LoadChildrenStep(s: State, t: Thread, p: Phase): State
    requires p.InParent?
  {
    var i := Position(s.cache.children, p.leaf);
    if i.None? || i.value > |s.cache.separators| then To(s, t, InCache(p.op, p.leaf, p.mark))
    else To(s, t, SawCache(p.op, p.leaf, p.mark, p.pair, s.cacheVersion,
                           Splice(s.cache, i.value, p.pair.left, p.pair.right, p.pair.h.splitKey)))
  }

  function CasChildrenStep(s: State, t: Thread, p: Phase): State
    requires p.SawCache?
  {
    if s.cacheVersion != p.seen then To(s, t, InParent(p.op, p.leaf, p.mark, p.pair))
    else Commit(To(Install(s, p), t, InCache(p.op, p.leaf, p.mark)), t, p.op)
  }

  /** The new cache makes both halves visible. */
  function Install(s: State, p: Phase): State
    requires p.SawCache?
  {
    var place := if p.leaf in s.places then s.places[p.leaf] else Place(None, None, 0, None);
    s.(cache := p.cache, cacheVersion := s.cacheVersion + 1,
       refs := s.refs[p.pair.left := s.next][p.pair.right := s.next + 1],
       infos := s.infos[s.next := Info(p.pair.h.left, Normal)][s.next + 1 := Info(p.pair.h.right, Normal)],
       next := s.next + 2,
       places := s.places[p.pair.left := place.(hi := Some(p.pair.h.splitKey))]
                          [p.pair.right := place.(lo := Some(p.pair.h.splitKey))],
       pending := s.pending - {p.leaf})
  }

  function CasRedirectStep(s: State, t: Thread, p: Phase): State
    requires p.InCache? && Known(s, p.leaf) && p.mark in s.infos
  {
    if s.refs[p.leaf] != p.mark then To(s, t, Searching(p.op))
    else Succeed(To(Swap(s, p.leaf, Info(s.infos[p.mark].page, Redirect)), t, Done(p.op)), t, p.op)
  }

  /** The deferred rollback puts the old record back; the operation then retries or fails. */
  function CasRollBackStep(s: State, t: Thread, p: Phase): State
    requires p.RollBack? && Known(s, p.leaf)
  {
    var s' := To(s, t, if p.retry then Searching(p.op) else Failed(p.op));
    if s.refs[p.leaf] == p.mark then s'.(refs := s.refs[p.leaf := p.info]) else s'
  }

  /** The map as read through the children cache. */
  ghost function Read(s: State, k: Key): Option<Value> {
    if Known(s, Child(s, k)) then LeafGet(InfoOf(s, Child(s, k)).page.entries, k) else None
  }
}
