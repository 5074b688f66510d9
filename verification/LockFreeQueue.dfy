/**
 The Michael-Scott queue that keeps free page IDs (lockfree_queue.go), as a machine of atomic loads
 and compare-and-swaps. Nodes are not reused: the garbage collector keeps a node while it is referenced.
 */
module LockFreeQueue {
  import opened Bytes

  type Node = nat
  type Item = nat
  type Thread = nat

  datatype Phase =
    | Idle
    // Enqueue
    | ENew(node: Node)                                            // about to load the tail
    | ETail(node: Node, tail: Node)
    | ENext(node: Node, tail: Node, next: Option<Node>)
    | EChecked(node: Node, tail: Node, next: Option<Node>)        // the tail was still the same
    | ELinked(node: Node, tail: Node)                             // about to swing the tail
    // Dequeue
    | DStart
    | DHead(head: Node)
    | DTail(head: Node, tail: Node)
    | DNext(head: Node, tail: Node, next: Option<Node>, wasEmpty: bool)  // history: the queue at the load of next
    | DChecked(head: Node, tail: Node, next: Option<Node>, wasEmpty: bool)
    | DValue(head: Node, first: Node, item: Item)                  // about to advance the head
    // returned
    | Enqueued
    | Dequeued(item: Item)
    | FoundEmpty(wasEmpty: bool)

  datatype State = State(
    items: map<Node, Item>,
    next: map<Node, Node>,             // next pointers that are set
    head: Node, tail: Node,
    unused: nat,
    threads: map<Thread, Phase>,
    chain: seq<Node>,                  // history: all nodes in the order they were linked, the dummy first
    pos: map<Node, nat>,               // history: the position of each linked node
    enqueued: seq<Item>,               // history: items in the order they were linked
    dequeued: seq<Item>)               // history: items in the order they were taken

  datatype Action =
    | StartEnqueue(item: Item) | StartDequeue | LoadTail | LoadNext | Recheck | Link | HelpTail | SwingTail
    | LoadHead | ReturnEmpty | LoadItem | CasHead

  const START := State(map[0 := 0], map[], 0, 0, 1, map[], [0], map[0 := 0], [], [])

  function PhaseOf(s: State, t: Thread): Phase {
    if t in s.threads then s.threads[t] else Idle
  }

  function To(s: State, t: Thread, p: Phase): State {
    s.(threads := s.threads[t := p])
  }

  function NextOf(s: State, n: Node): Option<Node> {
    if n in s.next then Some(s.next[n]) else None
  }

  function ItemOf(s: State, n: Node): Item {
    if n in s.items then s.items[n] else 0
  }

  /** The queue: items of the nodes behind the head. */
  ghost function Contents(s: State): seq<Item> {
    if s.head in s.pos && s.pos[s.head] < |s.chain| then ItemsOf(s, s.chain[s.pos[s.head] + 1..]) else []
  }

  ghost function ItemsOf(s: State, ns: seq<Node>): (r: seq<Item>)
    ensures |r| == |ns| && forall i :: 0 <= i < |ns| ==> r[i] == ItemOf(s, ns[i])
  {
    seq(|ns|, i requires 0 <= i < |ns| => ItemOf(s, ns[i]))
  }

  ghost function DoEnqueue(s: State, t: Thread, a: Action): State {
    var p := PhaseOf(s, t);
    match a
    case StartEnqueue(item) =>
      if p.Idle? || p.Enqueued? || p.Dequeued? || p.FoundEmpty? then
        To(s.(items := s.items[s.unused := item], unused := s.unused + 1), t, ENew(s.unused))
      else s
    case LoadTail => if p.ENew? then To(s, t, ETail(p.node, s.tail)) else s
    case LoadNext => if p.ETail? then To(s, t, ENext(p.node, p.tail, NextOf(s, p.tail))) else s
    case Recheck =>
      if p.ENext? then To(s, t, if s.tail == p.tail then EChecked(p.node, p.tail, p.next) else ENew(p.node)) else s
    case HelpTail =>
      if p.EChecked? && p.next.Some? then
        To(if s.tail == p.tail then s.(tail := p.next.value) else s, t, ENew(p.node))
      else s
    case Link =>
      if p.EChecked? && p.next.None? then
        if p.tail in s.next then To(s, t, ENew(p.node))
        else
          To(s.(next := s.next[p.tail := p.node], chain := s.chain + [p.node], pos := s.pos[p.node := |s.chain|],
                enqueued := s.enqueued + [ItemOf(s, p.node)]), t, ELinked(p.node, p.tail))
      else s
    case SwingTail =>
      if p.ELinked? then To(if s.tail == p.tail then s.(tail := p.node) else s, t, Enqueued) else s
    case _ => s
  }

  ghost function DoDequeue(s: State, t: Thread, a: Action): State {
    var p := PhaseOf(s, t);
    match a
    case StartDequeue => if p.Idle? || p.Enqueued? || p.Dequeued? || p.FoundEmpty? then To(s, t, DStart) else s
    case LoadHead => if p.DStart? then To(s, t, DHead(s.head)) else s
    case LoadTail => if p.DHead? then To(s, t, DTail(p.head, s.tail)) else s
    case LoadNext => if p.DTail? then To(s, t, DNext(p.head, p.tail, NextOf(s, p.head), Contents(s) == [])) else s
    case Recheck =>
      if p.DNext? then To(s, t, if s.head == p.head then DChecked(p.head, p.tail, p.next, p.wasEmpty) else DStart)
        else s
    case ReturnEmpty => if p.DChecked? && p.next.None? then To(s, t, FoundEmpty(p.wasEmpty)) else s
    case HelpTail =>
      if p.DChecked? && p.next.Some? && p.head == p.tail then
        To(if s.tail == p.tail then s.(tail := p.next.value) else s, t, DStart)
      else s
    case LoadItem =>
      if p.DChecked? && p.next.Some? && p.head != p.tail
        then To(s, t, DValue(p.head, p.next.value, ItemOf(s, p.next.value))) else s
    case CasHead =>
      if p.DValue? then
        if s.head == p.head then To(s.(head := p.first, dequeued := s.dequeued + [p.item]), t, Dequeued(p.item))
        else To(s, t, DStart)
      else s
    case _ => s
  }

  ghost predicate Enqueues(p: Phase) {
    p.ENew? || p.ETail? || p.ENext? || p.EChecked? || p.ELinked?
  }

  ghost function Do(s: State, t: Thread, a: Action): State {
    if a.StartEnqueue? || Enqueues(PhaseOf(s, t)) then DoEnqueue(s, t, a) else DoDequeue(s, t, a)
  }

  datatype Step = Step(thread: Thread, action: Action)

  ghost function Run(steps: seq<Step>): State {
    if steps == [] then START
    else Do(Run(steps[..|steps| - 1]), steps[|steps| - 1].thread, steps[|steps| - 1].action)
  }

  // ---------------------------------------------------------------- invariant

  /** A linked node is at its position and points to the node linked after it. */
  ghost predicate NodeOK(s: State, n: Node) {
    n in s.pos ==>
      && s.pos[n] < |s.chain| && s.chain[s.pos[n]] == n && n < s.unused && n in s.items
      && NextOf(s, n) == if s.pos[n] + 1 < |s.chain| then Some(s.chain[s.pos[n] + 1]) else None
  }

  ghost predicate CellOK(s: State, i: nat) {
    i < |s.chain| ==> s.chain[i] in s.pos && s.pos[s.chain[i]] == i
  }

  /** The linked nodes form one list; head never passes tail, and tail lags by at most one node. */
  ghost predicate ListOK(s: State) {
    && (forall n {:trigger NodeOK(s, n)} :: NodeOK(s, n))
    && (forall i: nat {:trigger CellOK(s, i)} :: CellOK(s, i))
    && (forall n :: n in s.next ==> n in s.pos)
    && (forall n :: n in s.items ==> n < s.unused)
    && s.head in s.pos && s.tail in s.pos
    && s.pos[s.head] <= s.pos[s.tail] && |s.chain| <= s.pos[s.tail] + 2
  }

  /** `n` was the tail at some time. */
  ghost predicate PastTail(s: State, n: Node) {
    n in s.pos && s.tail in s.pos && s.pos[n] <= s.pos[s.tail]
  }

  ghost predicate PastHead(s: State, n: Node) {
    n in s.pos && s.head in s.pos && s.pos[n] <= s.pos[s.head]
  }

  ghost predicate Follows(s: State, n: Node, next: Option<Node>) {
    next.Some? ==> n in s.pos && next.value in s.pos && s.pos[next.value] == s.pos[n] + 1
  }

  /** `n` belongs to the thread alone. */
  ghost predicate Private(s: State, n: Node) {
    n !in s.pos && n < s.unused && n in s.items
  }

  ghost predicate PhaseOK(s: State, p: Phase) {
    match p
    case ENew(n) => Private(s, n)
    case ETail(n, tail) => Private(s, n) && PastTail(s, tail)
    case ENext(n, tail, next) => Private(s, n) && PastTail(s, tail) && Follows(s, tail, next)
    case EChecked(n, tail, next) => Private(s, n) && PastTail(s, tail) && Follows(s, tail, next)
    case ELinked(n, tail) => PastTail(s, tail) && Follows(s, tail, Some(n))
    case DHead(head) => PastHead(s, head)
    case DTail(head, tail) => PastHead(s, head) && PastTail(s, tail) && s.pos[head] <= s.pos[tail]
    case DNext(head, tail, next, wasEmpty) =>
      PastHead(s, head) && PastTail(s, tail) && s.pos[head] <= s.pos[tail] && Follows(s, head, next)
        && (next.None? ==> wasEmpty)
    case DChecked(head, tail, next, wasEmpty) =>
      PastHead(s, head) && PastTail(s, tail) && s.pos[head] <= s.pos[tail] && Follows(s, head, next)
        && (next.None? ==> wasEmpty)
    case DValue(head, next, item) =>
      PastHead(s, head) && Follows(s, head, Some(next)) && PastTail(s, next) && item == ItemOf(s, next)
    case FoundEmpty(wasEmpty) => wasEmpty
    case _ => true
  }

  ghost function Own(p: Phase): Option<Node> {
    match p
    case ENew(n) => Some(n)
    case ETail(n, _) => Some(n)
    case ENext(n, _, _) => Some(n)
    case EChecked(n, _, _) => Some(n)
    case _ => None
  }

  ghost predicate ThreadsOK(s: State) {
    && (forall t {:trigger PhaseOf(s, t)} :: PhaseOK(s, PhaseOf(s, t)))
    && (forall t, u {:trigger PhaseOf(s, t), PhaseOf(s, u)} :: t != u && Own(PhaseOf(s, t)).Some? ==>
        Own(PhaseOf(s, t)) != Own(PhaseOf(s, u)))
  }

  /** First in, first out: what was enqueued is what was dequeued, in order, followed by the queue. */
  ghost predicate Fifo(s: State) {
    s.enqueued == s.dequeued + Contents(s)
  }

  ghost predicate Inv(s: State) {
    ListOK(s) && ThreadsOK(s) && Fifo(s)
  }

  // ---------------------------------------------------------------- frames

  /** Lists only grow: positions stay, head and tail move forward. */
  ghost predicate Grown(s: State, s': State) {
    && (forall n :: n in s.pos ==> n in s'.pos && s'.pos[n] == s.pos[n])
    && (forall n :: n in s.items ==> n in s'.items && s'.items[n] == s.items[n])
    && s.unused <= s'.unused && s.head in s.pos && s.tail in s.pos
    && PastHead(s', s.head) && PastTail(s', s.tail)
  }

  lemma GrownPhase(s: State, s': State, p: Phase)
    requires Grown(s, s') && PhaseOK(s, p) && ListOK(s) && (Own(p).Some? ==> Own(p).value !in s'.pos)
    ensures PhaseOK(s', p)
  {
    if p.DValue? {
      assert NodeOK(s, p.first);
    }
  }

  lemma ThreadsStep(s: State, s': State, t: Thread, q: Phase)
    requires ThreadsOK(s) && ListOK(s) && Grown(s, s') && s'.threads == s.threads[t := q] && PhaseOK(s', q)
    requires forall n :: n in s'.pos && n !in s.pos ==> Own(PhaseOf(s, t)) == Some(n)
    requires Own(q).None? || Own(q) == Own(PhaseOf(s, t)) || Own(q) == Some(s.unused)
    ensures ThreadsOK(s')
  {
    hide PhaseOK, ListOK, Grown;
    forall u ensures PhaseOK(s', PhaseOf(s', u)) {
      if u != t {
        assert PhaseOf(s', u) == PhaseOf(s, u);
        OwnPrivate(s, PhaseOf(s, u));
        assert Own(PhaseOf(s, t)).Some? ==> Own(PhaseOf(s, t)) != Own(PhaseOf(s, u));
        GrownPhase(s, s', PhaseOf(s, u));
      }
    }
    forall u, v | u != v && Own(PhaseOf(s', u)).Some? ensures Own(PhaseOf(s', u)) != Own(PhaseOf(s', v)) {
      assert u != t ==> PhaseOf(s', u) == PhaseOf(s, u);
      assert v != t ==> PhaseOf(s', v) == PhaseOf(s, v);
      OwnPrivate(s, PhaseOf(s, u));
      OwnPrivate(s, PhaseOf(s, v));
      assert Own(PhaseOf(s, u)).Some? ==> Own(PhaseOf(s, u)) != Own(PhaseOf(s, v));
      assert Own(PhaseOf(s, v)).Some? ==> Own(PhaseOf(s, v)) != Own(PhaseOf(s, u));
    }
  }

  lemma OwnPrivate(s: State, p: Phase)
    requires PhaseOK(s, p)
    ensures Own(p).Some? ==> Own(p).value < s.unused && Own(p).value !in s.pos
  {
  }

  // ---------------------------------------------------------------- steps

  /** The queue is left alone, and no operation completes its effect. */
  ghost predicate Invisible(s: State, s': State, p: Phase, q: Phase) {
    && Contents(s') == Contents(s) && s'.enqueued == s.enqueued && s'.dequeued == s.dequeued
    && (q.ELinked? ==> p.ELinked?) && (q.Dequeued? ==> p.Dequeued?)
  }

  /** The enqueue of thread `t` takes effect: the item of its node goes to the end. */
  ghost predicate Appends(s: State, s': State, p: Phase, q: Phase) {
    && p.EChecked? && q.ELinked?
    && Contents(s') == Contents(s) + [ItemOf(s, p.node)] && s'.enqueued == s.enqueued + [ItemOf(s, p.node)]
       && s'.dequeued == s.dequeued
  }

  /** The dequeue of thread `t` takes effect: it returns the first item. */
  ghost predicate Takes(s: State, s': State, p: Phase, q: Phase) {
    && p.DValue? && q.Dequeued?
    && Contents(s) == [q.item] + Contents(s') && s'.dequeued == s.dequeued + [q.item] && s'.enqueued == s.enqueued
  }

  ghost predicate Refines(s: State, s': State, t: Thread) {
    var p, q := PhaseOf(s, t), PhaseOf(s', t);
    Invisible(s, s', p, q) || Appends(s, s', p, q) || Takes(s, s', p, q)
  }

  /** Steps that leave the list and the head alone: loads, checks, a new node, swinging the tail. */
  ghost predicate Quiet(s: State, s': State) {
    && s'.chain == s.chain && s'.pos == s.pos && s'.next == s.next && s'.head == s.head
    && s'.enqueued == s.enqueued && s'.dequeued == s.dequeued && s.unused <= s'.unused
    && (forall n :: n in s.items ==> n in s'.items && s'.items[n] == s.items[n])
    && (forall n :: n in s'.items ==> n < s'.unused)
    && s'.tail in s.pos && s.tail in s.pos && s.pos[s.tail] <= s.pos[s'.tail]
  }

  lemma QuietList(s: State, s': State)
    requires ListOK(s) && Quiet(s, s')
    ensures ListOK(s') && Grown(s, s') && Contents(s') == Contents(s)
  {
    forall n ensures NodeOK(s', n) {
      assert NodeOK(s, n);
    }
    forall i: nat ensures CellOK(s', i) {
      assert CellOK(s, i);
    }
    assert NodeOK(s, s.head);
    var ns := s.chain[s.pos[s.head] + 1..];
    forall i | 0 <= i < |ns| ensures ItemOf(s', ns[i]) == ItemOf(s, ns[i]) {
      assert CellOK(s, s.pos[s.head] + 1 + i);
      assert NodeOK(s, ns[i]);
    }
  }

  lemma QuietStep(s: State, s': State, t: Thread, q: Phase)
    requires Inv(s) && Quiet(s, s') && s'.threads == s.threads[t := q] && PhaseOK(s', q)
    requires (q.Dequeued? ==> PhaseOf(s, t).Dequeued?) && (q.ELinked? ==> PhaseOf(s, t).ELinked?)
    requires Own(q).None? || Own(q) == Own(PhaseOf(s, t)) || Own(q) == Some(s.unused)
    ensures Inv(s') && Refines(s, s', t)
  {
    hide PhaseOK, ListOK, ThreadsOK, Contents;
    QuietList(s, s');
    ThreadsStep(s, s', t, q);
  }

  lemma LinkStep(s: State, t: Thread)
    requires Inv(s) && PhaseOf(s, t).EChecked? && PhaseOf(s, t).tail !in s.next
    ensures var p := PhaseOf(s, t);
            var s' := To(s.(next := s.next[p.tail := p.node], chain := s.chain + [p.node],
                            pos := s.pos[p.node := |s.chain|],
                            enqueued := s.enqueued + [ItemOf(s, p.node)]), t, ELinked(p.node, p.tail));
            Inv(s') && Refines(s, s', t)
  {
    hide ThreadsOK, ListOK, Contents;
    var p := PhaseOf(s, t);
    assert PhaseOK(s, p) by { ThreadAt(s, t); }
    var s' := To(s.(next := s.next[p.tail := p.node], chain := s.chain + [p.node], pos := s.pos[p.node := |s.chain|],
                    enqueued := s.enqueued + [ItemOf(s, p.node)]), t, ELinked(p.node, p.tail));
    LinkList(s, s', p.node, p.tail);
    ThreadsStep(s, s', t, ELinked(p.node, p.tail));
  }

  lemma LinkList(s: State, s': State, n: Node, tail: Node)
    requires ListOK(s) && Private(s, n) && tail !in s.next && PastTail(s, tail)
    requires s'.next == s.next[tail := n] && s'.chain == s.chain + [n] && s'.pos == s.pos[n := |s.chain|]
    requires s'.head == s.head && s'.tail == s.tail && s'.items == s.items && s'.unused == s.unused
    ensures ListOK(s') && Grown(s, s') && Follows(s', tail, Some(n)) && Contents(s') == Contents(s) + [ItemOf(s, n)]
  {
    assert NodeOK(s, tail) && NodeOK(s, s.tail) && NodeOK(s, s.head);
    assert NextOf(s, tail).None?;
    forall m ensures NodeOK(s', m) {
      assert NodeOK(s, m);
      assert m in s.pos && m != tail ==> s.pos[m] != s.pos[tail];
    }
    forall i: nat ensures CellOK(s', i) {
      assert CellOK(s, i);
      assert i < |s.chain| ==> s'.chain[i] == s.chain[i];
    }
    assert s'.chain[s.pos[s.head] + 1..] == s.chain[s.pos[s.head] + 1..] + [n];
  }

  lemma ThreadAt(s: State, t: Thread)
    requires ThreadsOK(s)
    ensures PhaseOK(s, PhaseOf(s, t))
  {
  }

  lemma TakeStep(s: State, t: Thread)
    requires Inv(s) && PhaseOf(s, t).DValue? && s.head == PhaseOf(s, t).head
    ensures var p := PhaseOf(s, t);
            var s' := To(s.(head := p.first, dequeued := s.dequeued + [p.item]), t, Dequeued(p.item));
            Inv(s') && Refines(s, s', t)
  {
    hide ThreadsOK, ListOK, Contents;
    var p := PhaseOf(s, t);
    assert PhaseOK(s, p) by { ThreadAt(s, t); }
    var s' := To(s.(head := p.first, dequeued := s.dequeued + [p.item]), t, Dequeued(p.item));
    TakeList(s, s', p.first);
    ThreadsStep(s, s', t, Dequeued(p.item));
  }

  lemma TakeList(s: State, s': State, first: Node)
    requires ListOK(s) && Follows(s, s.head, Some(first)) && PastTail(s, first)
    requires s'.next == s.next && s'.chain == s.chain && s'.pos == s.pos && s'.tail == s.tail && s'.items == s.items
             && s'.unused == s.unused
    requires s'.head == first
    ensures ListOK(s') && Grown(s, s') && Contents(s) == [ItemOf(s, first)] + Contents(s')
  {
    forall m ensures NodeOK(s', m) {
      assert NodeOK(s, m);
    }
    forall i: nat ensures CellOK(s', i) {
      assert CellOK(s, i);
    }
    assert NodeOK(s, first) && NodeOK(s, s.head);
    var h := s.pos[s.head];
    assert s.chain[h + 1..] == [first] + s.chain[h + 2..];
  }

  /** A dequeue that loads no next node loads it from the head, and the queue is empty. */
  lemma NoNext(s: State, head: Node)
    requires ListOK(s) && PastHead(s, head) && NextOf(s, head).None?
    ensures Contents(s) == []
  {
    assert NodeOK(s, head) && NodeOK(s, s.head);
  }

  lemma NextFollows(s: State, n: Node)
    requires ListOK(s) && n in s.pos
    ensures Follows(s, n, NextOf(s, n))
  {
    assert NodeOK(s, n) && CellOK(s, s.pos[n] + 1);
  }

  /** Swinging the tail to the next node keeps it in the list. */
  lemma FollowsTail(s: State, tail: Node, next: Node)
    requires ListOK(s) && Follows(s, tail, Some(next))
    ensures next in s.pos && (s.tail == tail ==> s.pos[s.tail] <= s.pos[next])
    ensures s.tail != tail && PastTail(s, tail) ==> PastTail(s, next)
  {
    assert NodeOK(s, s.tail) && NodeOK(s, tail);
  }

  /** What `QuietStep` asks of a step. */
  ghost predicate QuietTo(s: State, s': State, t: Thread) {
    var p, q := PhaseOf(s, t), PhaseOf(s', t);
    && Quiet(s, s') && s'.threads == s.threads[t := q] && PhaseOK(s', q)
    && (q.Dequeued? ==> p.Dequeued?) && (q.ELinked? ==> p.ELinked?)
    && (Own(q).None? || Own(q) == Own(p) || Own(q) == Some(s.unused))
  }

  lemma EnqueueQuiet(s: State, t: Thread, a: Action)
    requires ListOK(s) && PhaseOK(s, PhaseOf(s, t)) && DoEnqueue(s, t, a) != s
    requires var p := PhaseOf(s, t); !(a.Link? && p.EChecked? && p.next.None? && p.tail !in s.next)
    ensures QuietTo(s, DoEnqueue(s, t, a), t)
  {
    var p := PhaseOf(s, t);
    if a.LoadNext? && p.ETail? {
      NextFollows(s, p.tail);
    }
    assert s.unused in s.pos ==> NodeOK(s, s.unused);
  }

  lemma EnqueueStep(s: State, t: Thread, a: Action)
    requires Inv(s) && (a.StartEnqueue? || Enqueues(PhaseOf(s, t)))
    ensures Inv(DoEnqueue(s, t, a)) && Refines(s, DoEnqueue(s, t, a), t)
  {
    hide ListOK, ThreadsOK, Fifo, Contents, Quiet, PhaseOK;
    var p, s' := PhaseOf(s, t), DoEnqueue(s, t, a);
    ThreadAt(s, t);
    if a.Link? && p.EChecked? && p.next.None? && p.tail !in s.next {
      LinkStep(s, t);
    } else if s' != s {
      EnqueueQuiet(s, t, a);
      QuietStep(s, s', t, PhaseOf(s', t));
    }
  }

  lemma DequeueLoads(s: State, t: Thread, a: Action)
    requires ListOK(s) && PhaseOK(s, PhaseOf(s, t)) && DoDequeue(s, t, a) != s
    requires a.StartDequeue? || a.LoadHead? || a.LoadTail? || a.LoadNext?
    ensures QuietTo(s, DoDequeue(s, t, a), t)
  {
    hide Contents;
    var p := PhaseOf(s, t);
    if a.LoadNext? && p.DTail? {
      NextFollows(s, p.head);
      if NextOf(s, p.head).None? {
        NoNext(s, p.head);
      }
    }
  }

  lemma DequeueActs(s: State, t: Thread, a: Action)
    requires ListOK(s) && PhaseOK(s, PhaseOf(s, t)) && DoDequeue(s, t, a) != s
    requires a.Recheck? || a.ReturnEmpty? || a.HelpTail? || a.LoadItem? || a.CasHead?
    requires !(a.CasHead? && PhaseOf(s, t).DValue? && s.head == PhaseOf(s, t).head)
    ensures QuietTo(s, DoDequeue(s, t, a), t)
  {
    hide Contents;
    var p := PhaseOf(s, t);
    if p.DChecked? && p.next.Some? {
      assert NodeOK(s, p.head) && NodeOK(s, p.tail);
      FollowsTail(s, p.head, p.next.value);
    }
  }

  lemma DequeueStep(s: State, t: Thread, a: Action)
    requires Inv(s) && !Enqueues(PhaseOf(s, t))
    ensures Inv(DoDequeue(s, t, a)) && Refines(s, DoDequeue(s, t, a), t)
  {
    hide ListOK, ThreadsOK, Fifo, Contents, Quiet, PhaseOK;
    var p, s' := PhaseOf(s, t), DoDequeue(s, t, a);
    ThreadAt(s, t);
    if a.CasHead? && p.DValue? && s.head == p.head {
      TakeStep(s, t);
    } else if s' != s {
      if a.StartDequeue? || a.LoadHead? || a.LoadTail? || a.LoadNext? {
        DequeueLoads(s, t, a);
      } else {
        DequeueActs(s, t, a);
      }
      QuietStep(s, s', t, PhaseOf(s', t));
    }
  }

  /** Every atomic step is invisible, or it is one enqueue at the end or one dequeue at the front. */
  lemma StepRefines(s: State, t: Thread, a: Action)
    requires Inv(s)
    ensures Inv(Do(s, t, a)) && Refines(s, Do(s, t, a), t)
  {
    hide Inv, Refines, DoEnqueue, DoDequeue;
    if a.StartEnqueue? || Enqueues(PhaseOf(s, t)) {
      EnqueueStep(s, t, a);
    } else {
      DequeueStep(s, t, a);
    }
  }

  /**
   Over every interleaving: items leave in the order they entered, head never passes tail, and a
   dequeue that reports an empty queue met an empty queue at one of its own steps.
   */
  lemma {:induction false} RunFifo(steps: seq<Step>)
    ensures var s := Run(steps);
            && Inv(s) && s.enqueued == s.dequeued + Contents(s)
            && s.head in s.pos && s.tail in s.pos && s.pos[s.head] <= s.pos[s.tail]
            && forall t :: PhaseOf(s, t).FoundEmpty? ==> PhaseOf(s, t).wasEmpty
  {
    hide Do, Contents;
    if steps == [] {
      StartInv();
    } else {
      var n := |steps| - 1;
      RunFifo(steps[..n]);
      StepRefines(Run(steps[..n]), steps[n].thread, steps[n].action);
    }
  }

  lemma StartInv()
    ensures Inv(START)
  {
    forall t ensures PhaseOf(START, t).Idle? {}
    assert START.chain[1..] == [];
  }

  // ---------------------------------------------------------------- facts for clients of the queue

  lemma InvParts(s: State)
    requires Inv(s)
    ensures ListOK(s) && ThreadsOK(s) && Fifo(s)
  {
  }

  /** A private node has its item. */
  lemma OwnKnown(s: State, p: Phase)
    requires PhaseOK(s, p)
    ensures Own(p).Some? ==> Own(p).value in s.items
  {
  }

  /** Items never change, and a step of one thread does not move another. */
  lemma ItemsStay(s: State, t: Thread, a: Action)
    requires Inv(s)
    ensures forall n :: n in s.items ==> n in Do(s, t, a).items && Do(s, t, a).items[n] == s.items[n]
    ensures forall u :: u != t ==> PhaseOf(Do(s, t, a), u) == PhaseOf(s, u)
  {
    hide ThreadsOK, Fifo, Contents;
  }
}
