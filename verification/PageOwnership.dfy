/**
 The page allocator over its lock-free queue, step by step (page_manager.go, lockfree_queue.go): any
 number of threads allocate and free pages, and the steps of the queue, of the page counter and of the
 usage counter interleave in any order. A thread frees only pages it holds.
 */
module PageOwnership {
  import opened Bytes
  import opened Finite
  import Q = LockFreeQueue

  type Page = nat
  type Thread = Q.Thread

  const WRAP := 0x1_0000_0000

  datatype Client =
    | Resting
    | Taking                  // Alloc: inside Dequeue
    | Bumping                 // Alloc: the queue was empty, about to advance the page counter
    | Counting(page: Page)    // Alloc: has a page, about to count it
    | Putting(page: Page)     // Free: inside Enqueue
    | Uncounting              // Free: about to uncount it

  /** `holder` is history: who holds a page. */
  datatype System = System(total: nat, queue: Q.State, next: nat, used: int, clients: map<Thread, Client>,
                           holder: map<Page, Thread>)

  datatype Action = StartAlloc | StartFree(page: Page) | QueueStep(step: Q.Action) | Bump | CountUp | CountDown

  function ClientOf(y: System, t: Thread): Client {
    if t in y.clients then y.clients[t] else Resting
  }

  function To(y: System, t: Thread, c: Client): System {
    y.(clients := y.clients[t := c])
  }

  /** A step inside Dequeue or Enqueue, and what the thread does when the call returns. */
  ghost function InQueue(y: System, t: Thread, step: Q.Action): System {
    var c, q := ClientOf(y, t), Q.Do(y.queue, t, step);
    var p, z := Q.PhaseOf(q, t), y.(queue := q);
    if c.Taking? && p.Dequeued? then To(z.(holder := z.holder[p.item := t]), t, Counting(p.item))
    else if c.Taking? && p.FoundEmpty? then To(z, t, Bumping)
    else if c.Putting? && p.Enqueued? then To(z, t, Uncounting)
    else z
  }

  ghost function Do(y: System, t: Thread, a: Action): System {
    var c := ClientOf(y, t);
    match a
    case StartAlloc =>
      if c.Resting? then To(y.(queue := Q.Do(y.queue, t, Q.StartDequeue)), t, Taking) else y
    case StartFree(page) =>
      if c.Resting? && page in y.holder && y.holder[page] == t then
        To(y.(queue := Q.Do(y.queue, t, Q.StartEnqueue(page)), holder := y.holder - {page}), t, Putting(page))
      else y
    case QueueStep(step) =>
      if (c.Taking? || c.Putting?) && !step.StartEnqueue? && !step.StartDequeue? then InQueue(y, t, step) else y
    case Bump =>
      if !c.Bumping? then y
      else
        var z := y.(next := (y.next + 1) % WRAP);
        if y.next >= y.total then To(z, t, Resting)
        else To(z.(holder := z.holder[y.next := t]), t, Counting(y.next))
    case CountUp => if c.Counting? then To(y.(used := y.used + 1), t, Resting) else y
    case CountDown => if c.Uncounting? then To(y.(used := y.used - 1), t, Resting) else y
  }

  datatype Step = Step(thread: Thread, action: Action)

  ghost function Start(total: nat): System {
    System(total, Q.START, 0, 0, map[], map[])
  }

  ghost function Run(total: nat, steps: seq<Step>): System {
    if steps == [] then Start(total)
    else Do(Run(total, steps[..|steps| - 1]), steps[|steps| - 1].thread, steps[|steps| - 1].action)
  }

  /** The page counter is not about to wrap around. */
  ghost predicate NoWrap(y: System, s: Step) {
    s.action.Bump? && ClientOf(y, s.thread).Bumping? ==> y.next + 1 < WRAP
  }

  ghost predicate NoWrapRun(total: nat, steps: seq<Step>) {
    forall n :: 0 <= n < |steps| ==> NoWrap(Run(total, steps[..n]), steps[n])
  }

  // ---------------------------------------------------------------- where every page is

  /** The page a thread is putting back and has not yet linked into the queue. */
  ghost function Transit(q: Q.State, t: Thread): Option<Page> {
    var own := Q.Own(Q.PhaseOf(q, t));
    if own.Some? then Some(Q.ItemOf(q, own.value)) else None
  }

  datatype Place = Held | Queued | Moving(thread: Thread) | Unused

  ghost predicate At(y: System, p: Page, w: Place) {
    match w
    case Held => p in y.holder
    case Queued => p in Q.Contents(y.queue)
    case Moving(t) => Transit(y.queue, t) == Some(p)
    case Unused => y.next <= p < y.total
  }

  /** Held pages, queued pages, pages being put back and unused pages partition the page range. */
  ghost predicate Owned(y: System) {
    && Distinct(Q.Contents(y.queue))
    && (forall p: Page, w {:trigger At(y, p, w)} :: At(y, p, w) ==> p < y.total && (!w.Unused? ==> p < y.next))
    && (forall p: Page, v, w {:trigger At(y, p, v), At(y, p, w)} :: At(y, p, v) && At(y, p, w) ==> v == w)
    && (forall p: Page {:trigger Somewhere(y, p)} :: p < y.total ==> Somewhere(y, p))
  }

  ghost predicate Somewhere(y: System, p: Page) {
    exists w :: At(y, p, w)
  }

  // ---------------------------------------------------------------- clients and the queue

  ghost predicate Taker(p: Q.Phase) {
    p.DStart? || p.DHead? || p.DTail? || p.DNext? || p.DChecked? || p.DValue?
  }

  ghost predicate Outside(p: Q.Phase) {
    p.Idle? || p.Enqueued? || p.Dequeued? || p.FoundEmpty?
  }

  ghost predicate ClientOK(c: Client, p: Q.Phase) {
    match c
    case Taking => Taker(p)
    case Putting(_) => Q.Enqueues(p)
    case _ => Outside(p)
  }

  ghost predicate ClientsOK(y: System) {
    forall t {:trigger ClientOf(y, t)} ::
      && ClientOK(ClientOf(y, t), Q.PhaseOf(y.queue, t))
      && (ClientOf(y, t).Counting? ==> ClientOf(y, t).page in y.holder && y.holder[ClientOf(y, t).page] == t)
  }

  ghost function Up(y: System): set<Thread> {
    set t | t in y.clients && y.clients[t].Counting?
  }

  ghost function Down(y: System): set<Thread> {
    set t | t in y.clients && (y.clients[t].Putting? || y.clients[t].Uncounting?)
  }

  /** The usage counter is the number of held pages, up to the calls that have not adjusted it yet. */
  ghost predicate Counted(y: System) {
    y.used + |Up(y)| == |y.holder| + |Down(y)|
  }

  ghost predicate Inv(y: System) {
    Q.Inv(y.queue) && Owned(y) && ClientsOK(y) && Counted(y)
  }

  // ---------------------------------------------------------------- moving a page

  /** Page `p` went from one place to another; everything else is where it was. */
  ghost predicate Moved(y: System, y': System, p: Page, v: Place, w: Place) {
    && y'.total == y.total && At(y, p, v)
    && (forall x: Page, u {:trigger At(y', x, u)} :: At(y', x, u) <==> if x == p then u == w else At(y, x, u))
    && y.next <= y'.next && (!w.Unused? ==> p < y'.next)
    && Distinct(Q.Contents(y'.queue))
  }

  lemma MovedOwned(y: System, y': System, p: Page, v: Place, w: Place)
    requires Owned(y) && Moved(y, y', p, v, w)
    ensures Owned(y')
  {
    hide At, Distinct;
    forall x: Page | x < y'.total ensures Somewhere(y', x) {
      if x == p {
        assert At(y', p, w);
      } else {
        assert Somewhere(y, x);
        var u :| At(y, x, u);
        assert At(y', x, u);
      }
    }
  }

  /** No page moved. */
  lemma SameOwned(y: System, y': System)
    requires Owned(y) && y'.total == y.total && y'.next >= y.next && Distinct(Q.Contents(y'.queue))
    requires forall x: Page, u {:trigger At(y', x, u)} :: At(y', x, u) <==> At(y, x, u)
    ensures Owned(y')
  {
    hide At, Distinct;
    forall x: Page | x < y'.total ensures Somewhere(y', x) {
      assert Somewhere(y, x);
      var u :| At(y, x, u);
      assert At(y', x, u);
    }
  }

  // ---------------------------------------------------------------- what a queue step does to the pages

  /** A queue step of thread `t` leaves what other threads are putting back alone. */
  lemma OtherTransit(q: Q.State, q': Q.State, t: Thread, a: Q.Action, u: Thread)
    requires Q.Inv(q) && q' == Q.Do(q, t, a) && u != t
    ensures Q.PhaseOf(q', u) == Q.PhaseOf(q, u) && Transit(q', u) == Transit(q, u)
  {
    hide Q.ListOK, Q.Fifo, Q.Contents;
    Q.ThreadAt(q, u);
    Q.OwnKnown(q, Q.PhaseOf(q, u));
    Q.ItemsStay(q, t, a);
  }

  /** The outcome of one step inside Dequeue. */
  lemma TakerStep(q: Q.State, t: Thread, a: Q.Action)
    requires Q.Inv(q) && Taker(Q.PhaseOf(q, t)) && !a.StartEnqueue? && !a.StartDequeue?
    ensures var q' := Q.Do(q, t, a);
            var p := Q.PhaseOf(q', t);
            && Q.Inv(q') && Transit(q, t).None? && Transit(q', t).None?
            && (if p.Dequeued? then Q.Contents(q) == [p.item] + Q.Contents(q')
                else (Taker(p) || p.FoundEmpty?) && Q.Contents(q') == Q.Contents(q))
  {
    hide Q.Inv, Q.Contents;
    Q.StepRefines(q, t, a);
  }

  /** The outcome of one step inside Enqueue. */
  lemma PutterStep(q: Q.State, t: Thread, a: Q.Action)
    requires Q.Inv(q) && Q.Enqueues(Q.PhaseOf(q, t)) && !a.StartEnqueue? && !a.StartDequeue?
    ensures var q' := Q.Do(q, t, a);
            var p, p' := Q.PhaseOf(q, t), Q.PhaseOf(q', t);
            && Q.Inv(q') && (Q.Enqueues(p') || p'.Enqueued?)
            && (if p.EChecked? && p'.ELinked? then
                  Transit(q, t).Some? && Transit(q', t).None? && Q.Contents(q') == Q.Contents(q) + [Transit(q, t).value]
                else Transit(q', t) == Transit(q, t) && Q.Contents(q') == Q.Contents(q))
  {
    hide Q.Inv, Q.Contents;
    Q.StepRefines(q, t, a);
    assert Q.ThreadsOK(q) by { Q.InvParts(q); }
    Q.ThreadAt(q, t);
    Q.OwnKnown(q, Q.PhaseOf(q, t));
    Q.ItemsStay(q, t, a);
  }

  /** Starting a call changes no queued page. */
  lemma StartStep(q: Q.State, t: Thread, a: Q.Action)
    requires Q.Inv(q) && Outside(Q.PhaseOf(q, t)) && (a.StartEnqueue? || a.StartDequeue?)
    ensures var q' := Q.Do(q, t, a);
            var p' := Q.PhaseOf(q', t);
            && Q.Inv(q') && Q.Contents(q') == Q.Contents(q) && Transit(q, t).None?
            && (if a.StartEnqueue? then p'.ENew? && Transit(q', t) == Some(a.item)
                else p'.DStart? && Transit(q', t).None?)
  {
    hide Q.Inv, Q.Contents;
    Q.StepRefines(q, t, a);
  }

  // ---------------------------------------------------------------- clients

  /** Thread `t` moved on to `c`; nobody else did. */
  ghost predicate Turn(y: System, y': System, t: Thread, c: Client) {
    && y'.clients == y.clients[t := c]
    && forall u {:trigger Q.PhaseOf(y'.queue, u)} :: u != t ==> Q.PhaseOf(y'.queue, u) == Q.PhaseOf(y.queue, u)
  }

  lemma TurnClients(y: System, y': System, t: Thread, c: Client)
    requires ClientsOK(y) && Turn(y, y', t, c) && ClientOK(c, Q.PhaseOf(y'.queue, t))
    requires c.Counting? ==> c.page in y'.holder && y'.holder[c.page] == t
    requires forall p :: p in y.holder && y.holder[p] != t ==> p in y'.holder && y'.holder[p] == y.holder[p]
    ensures ClientsOK(y')
  {
    forall u ensures ClientOK(ClientOf(y', u), Q.PhaseOf(y'.queue, u))
      && (ClientOf(y', u).Counting? ==> ClientOf(y', u).page in y'.holder && y'.holder[ClientOf(y', u).page] == u) {
      if u != t {
        assert ClientOf(y', u) == ClientOf(y, u);
        assert Q.PhaseOf(y'.queue, u) == Q.PhaseOf(y.queue, u);
      }
    }
  }

  lemma TurnCounts(y: System, y': System, t: Thread, c: Client)
    requires y'.clients == y.clients[t := c]
    ensures |Up(y')| == |Up(y)| - (if ClientOf(y, t).Counting? then 1 else 0) + (if c.Counting? then 1 else 0)
    ensures var was := ClientOf(y, t);
            |Down(y')| == |Down(y)| - (if was.Putting? || was.Uncounting? then 1 else 0)
              + (if c.Putting? || c.Uncounting? then 1 else 0)
  {
    Exchanged(Up(y), Up(y'), t);
    Exchanged(Down(y), Down(y'), t);
  }

  lemma Exchanged(a: set<Thread>, b: set<Thread>, t: Thread)
    requires forall u :: u != t ==> (u in a <==> u in b)
    ensures |b| == |a| - (if t in a then 1 else 0) + (if t in b then 1 else 0)
  {
    var c := a - {t};
    assert a == if t in a then c + {t} else c;
    assert b == if t in b then c + {t} else c;
  }

  // ---------------------------------------------------------------- steps

  lemma StartAllocStep(y: System, t: Thread)
    requires Inv(y) && ClientOf(y, t).Resting?
    ensures Inv(Do(y, t, StartAlloc))
  {
    hide Q.Inv, Q.Contents, Q.Do, Owned, ClientsOK;
    var y' := Do(y, t, StartAlloc);
    ClientAt(y, t);
    StartStep(y.queue, t, Q.StartDequeue);
    Others(y.queue, y'.queue, t, Q.StartDequeue);
    assert Distinct(Q.Contents(y'.queue)) by { OwnedParts(y); }
    SameOwned(y, y');
    TurnClients(y, y', t, Taking);
    TurnCounts(y, y', t, Taking);
  }

  lemma Others(q: Q.State, q': Q.State, t: Thread, a: Q.Action)
    requires Q.Inv(q) && q' == Q.Do(q, t, a)
    ensures forall u {:trigger Q.PhaseOf(q', u)} :: u != t ==> Q.PhaseOf(q', u) == Q.PhaseOf(q, u)
    ensures forall u {:trigger Transit(q', u)} :: u != t ==> Transit(q', u) == Transit(q, u)
  {
    hide Q.Inv, Q.Do, Transit;
    forall u | u != t ensures Q.PhaseOf(q', u) == Q.PhaseOf(q, u) && Transit(q', u) == Transit(q, u) {
      OtherTransit(q, q', t, a, u);
    }
  }

  lemma ClientAt(y: System, t: Thread)
    requires ClientsOK(y)
    ensures ClientOK(ClientOf(y, t), Q.PhaseOf(y.queue, t))
    ensures ClientOf(y, t).Counting? ==> ClientOf(y, t).page in y.holder && y.holder[ClientOf(y, t).page] == t
  {
  }

  lemma OwnedParts(y: System)
    requires Owned(y)
    ensures Distinct(Q.Contents(y.queue))
    ensures forall p: Page, w {:trigger At(y, p, w)} :: At(y, p, w) ==> p < y.total && (!w.Unused? ==> p < y.next)
    ensures forall p: Page, v, w {:trigger At(y, p, v), At(y, p, w)} :: At(y, p, v) && At(y, p, w) ==> v == w
  {
  }

  lemma StartFreeStep(y: System, t: Thread, page: Page)
    requires Inv(y) && ClientOf(y, t).Resting? && page in y.holder && y.holder[page] == t
    ensures Inv(Do(y, t, StartFree(page)))
  {
    hide Q.Inv, Q.Contents, Q.Do, Owned, ClientsOK, Transit;
    var y' := Do(y, t, StartFree(page));
    ClientAt(y, t);
    StartStep(y.queue, t, Q.StartEnqueue(page));
    Others(y.queue, y'.queue, t, Q.StartEnqueue(page));
    OwnedParts(y);
    assert At(y, page, Held);
    forall x: Page, u ensures At(y', x, u) <==> if x == page then u == Moving(t) else At(y, x, u) {
      assert x == page && At(y, x, u) ==> u == Held;
    }
    MovedOwned(y, y', page, Held, Moving(t));
    TurnClients(y, y', t, Putting(page));
    TurnCounts(y, y', t, Putting(page));
    assert |y'.holder| == |y.holder| - 1 by { RemovedOne(y.holder, page); }
  }

  lemma RemovedOne(m: map<Page, Thread>, p: Page)
    requires p in m
    ensures |m - {p}| == |m| - 1
  {
    assert (m - {p}).Keys == m.Keys - {p};
    assert |m.Keys| == |m| && |(m - {p}).Keys| == |m - {p}|;
  }

  lemma AddedOne(m: map<Page, Thread>, p: Page, t: Thread)
    requires p !in m
    ensures |m[p := t]| == |m| + 1
  {
    assert m[p := t].Keys == m.Keys + {p};
    assert |m.Keys| == |m| && |m[p := t].Keys| == |m[p := t]|;
  }

  lemma TakeStep(y: System, t: Thread, a: Q.Action)
    requires Inv(y) && ClientOf(y, t).Taking? && !a.StartEnqueue? && !a.StartDequeue?
    ensures Inv(InQueue(y, t, a))
  {
    hide Q.Inv, Q.Contents, Q.Do, Owned, ClientsOK, Transit;
    var y' := InQueue(y, t, a);
    ClientAt(y, t);
    TakerStep(y.queue, t, a);
    Others(y.queue, y'.queue, t, a);
    OwnedParts(y);
    var p := Q.PhaseOf(y'.queue, t);
    if p.Dequeued? {
      TookFirst(y, y', t, p.item);
      TurnClients(y, y', t, Counting(p.item));
      TurnCounts(y, y', t, Counting(p.item));
      AddedOne(y.holder, p.item, t);
    } else {
      SameOwned(y, y');
      var c := if p.FoundEmpty? then Bumping else Taking;
      assert y'.clients == y.clients[t := c];
      TurnClients(y, y', t, c);
      TurnCounts(y, y', t, c);
    }
  }

  /** The page at the front of the queue goes to the thread that takes it. */
  lemma TookFirst(y: System, y': System, t: Thread, item: Page)
    requires Owned(y) && y'.total == y.total && y'.next == y.next && y'.holder == y.holder[item := t]
    requires Q.Contents(y.queue) == [item] + Q.Contents(y'.queue)
    requires forall u {:trigger Transit(y'.queue, u)} :: Transit(y'.queue, u) == Transit(y.queue, u)
    ensures Owned(y') && item !in y.holder
  {
    hide Q.Contents, Owned, Transit;
    OwnedParts(y);
    var was, now := Q.Contents(y.queue), Q.Contents(y'.queue);
    assert was[0] == item && was[1..] == now;
    assert item in was && At(y, item, Queued);
    assert item !in now;
    assert Distinct(now);
    forall x: Page, u ensures At(y', x, u) <==> if x == item then u == Held else At(y, x, u) {
      assert x == item && At(y, x, u) ==> u == Queued;
      assert x in was <==> x == item || x in now;
    }
    MovedOwned(y, y', item, Queued, Held);
    assert At(y, item, Held) ==> Held == Queued;
  }

  lemma PutStep(y: System, t: Thread, a: Q.Action)
    requires Inv(y) && ClientOf(y, t).Putting? && !a.StartEnqueue? && !a.StartDequeue?
    ensures Inv(InQueue(y, t, a))
  {
    hide Q.Inv, Q.Contents, Q.Do, Owned, ClientsOK, Transit;
    var y', c := InQueue(y, t, a), ClientOf(y, t);
    ClientAt(y, t);
    PutterStep(y.queue, t, a);
    Others(y.queue, y'.queue, t, a);
    OwnedParts(y);
    var p, p' := Q.PhaseOf(y.queue, t), Q.PhaseOf(y'.queue, t);
    if p.EChecked? && p'.ELinked? {
      PutLast(y, y', t, Transit(y.queue, t).value);
    } else {
      SameOwned(y, y');
    }
    var c' := if p'.Enqueued? then Uncounting else c;
    assert t in y.clients;
    assert y'.clients == y.clients[t := c'];
    TurnClients(y, y', t, c');
    TurnCounts(y, y', t, c');
  }

  /** A linked page is queued. */
  lemma PutLast(y: System, y': System, t: Thread, item: Page)
    requires Owned(y) && y'.total == y.total && y'.next == y.next && y'.holder == y.holder
    requires Q.Contents(y'.queue) == Q.Contents(y.queue) + [item] && Transit(y.queue, t) == Some(item)
             && Transit(y'.queue, t).None?
    requires forall u {:trigger Transit(y'.queue, u)} :: u != t ==> Transit(y'.queue, u) == Transit(y.queue, u)
    ensures Owned(y')
  {
    hide Q.Contents, Owned, Transit;
    OwnedParts(y);
    assert At(y, item, Moving(t));
    assert item in Q.Contents(y.queue) ==> At(y, item, Queued);
    assert item !in Q.Contents(y.queue);
    assert Distinct(Q.Contents(y'.queue));
    forall x: Page, u ensures At(y', x, u) <==> if x == item then u == Queued else At(y, x, u) {
      assert x == item && At(y, x, u) ==> u == Moving(t);
    }
    MovedOwned(y, y', item, Moving(t), Queued);
  }

  lemma BumpStep(y: System, t: Thread)
    requires Inv(y) && ClientOf(y, t).Bumping? && y.next + 1 < WRAP
    ensures Inv(Do(y, t, Bump))
  {
    hide Q.Inv, Q.Contents, Owned, ClientsOK, Transit;
    var y' := Do(y, t, Bump);
    ClientAt(y, t);
    OwnedParts(y);
    var page := y.next;
    if page < y.total {
      assert At(y, page, Unused);
      forall x: Page, u ensures At(y', x, u) <==> if x == page then u == Held else At(y, x, u) {
        assert x == page && At(y, x, u) ==> u == Unused;
      }
      MovedOwned(y, y', page, Unused, Held);
      assert page in y.holder ==> At(y, page, Held);
      TurnClients(y, y', t, Counting(page));
      TurnCounts(y, y', t, Counting(page));
      AddedOne(y.holder, page, t);
    } else {
      SameOwned(y, y');
      TurnClients(y, y', t, Resting);
      TurnCounts(y, y', t, Resting);
    }
  }

  lemma CountStep(y: System, t: Thread, a: Action)
    requires Inv(y) && ((a.CountUp? && ClientOf(y, t).Counting?) || (a.CountDown? && ClientOf(y, t).Uncounting?))
    ensures Inv(Do(y, t, a))
  {
    hide Q.Inv, Q.Contents, Owned, ClientsOK, Transit;
    var y' := Do(y, t, a);
    ClientAt(y, t);
    assert Distinct(Q.Contents(y'.queue)) by { OwnedParts(y); }
    SameOwned(y, y');
    TurnClients(y, y', t, Resting);
    TurnCounts(y, y', t, Resting);
  }

  lemma StepInv(y: System, s: Step)
    requires Inv(y) && NoWrap(y, s)
    ensures Inv(Do(y, s.thread, s.action))
  {
    hide Inv, InQueue;
    var t, c := s.thread, ClientOf(y, s.thread);
    match s.action
    case StartAlloc => if c.Resting? { StartAllocStep(y, t); }
    case StartFree(page) => if c.Resting? && page in y.holder && y.holder[page] == t { StartFreeStep(y, t, page); }
    case QueueStep(a) =>
      if c.Taking? && !a.StartEnqueue? && !a.StartDequeue? {
        TakeStep(y, t, a);
      } else if c.Putting? && !a.StartEnqueue? && !a.StartDequeue? {
        PutStep(y, t, a);
      }
    case Bump => if c.Bumping? { BumpStep(y, t); }
    case CountUp => if c.Counting? { CountStep(y, t, s.action); }
    case CountDown => if c.Uncounting? { CountStep(y, t, s.action); }
  }

  /**
   Over every interleaving in which the page counter does not wrap around: no page is in two places, so
   none is handed to two holders, every page is somewhere, and with no call under way the usage counter
   is the number of pages held.
   */
  lemma {:induction false} RunOwned(total: nat, steps: seq<Step>)
    requires NoWrapRun(total, steps)
    ensures var y := Run(total, steps);
            && Inv(y) && Owned(y)
            && ((forall t :: ClientOf(y, t).Resting?) ==> y.used == |y.holder|)
  {
    hide Owned, ClientsOK, Q.Inv, Do;
    var y := Run(total, steps);
    if steps == [] {
      StartInv(total);
    } else {
      var n := |steps| - 1;
      var front := steps[..n];
      forall m | 0 <= m < n ensures NoWrap(Run(total, front[..m]), front[m]) {
        assert front[..m] == steps[..m];
      }
      RunOwned(total, front);
      StepInv(Run(total, front), steps[n]);
    }
    if forall t :: ClientOf(y, t).Resting? {
      forall t | t in y.clients ensures y.clients[t].Resting? {
        assert ClientOf(y, t).Resting?;
      }
      assert Up(y) == {} && Down(y) == {};
    }
  }

  // ---------------------------------------------------------------- when the counter wraps

  /** A step keeps the partition if and only if it does not wrap the counter: then page 0 is handed out again. */
  lemma StepOwned(y: System, s: Step)
    requires Inv(y) && 0 < y.total < WRAP && y.next < WRAP
    ensures Owned(Do(y, s.thread, s.action)) <==> NoWrap(y, s)
  {
    hide Q.Inv, Q.Contents, ClientsOK, Transit, InQueue;
    if NoWrap(y, s) {
      StepInv(y, s);
    } else {
      var y' := Do(y, s.thread, s.action);
      assert Somewhere(y, 0);
      var w :| At(y, 0, w);
      assert At(y', 0, w) && At(y', 0, Unused) && w != Unused;
    }
  }

  lemma {:induction false} RunNext(total: nat, steps: seq<Step>)
    ensures Run(total, steps).total == total && Run(total, steps).next < WRAP
  {
    if steps != [] {
      RunNext(total, steps[..|steps| - 1]);
    }
  }

  lemma PrefixNoWrap(total: nat, steps: seq<Step>, n: nat)
    requires NoWrapRun(total, steps) && n <= |steps|
    ensures NoWrapRun(total, steps[..n])
  {
    hide NoWrap, Run;
    forall m | 0 <= m < n ensures NoWrap(Run(total, steps[..n][..m]), steps[..n][m]) {
      assert steps[..n][..m] == steps[..m];
    }
  }

  ghost predicate AlwaysOwned(total: nat, steps: seq<Step>) {
    forall n :: 0 <= n <= |steps| ==> Owned(Run(total, steps[..n]))
  }

  lemma PrefixOwned(total: nat, steps: seq<Step>, n: nat)
    requires AlwaysOwned(total, steps) && n <= |steps|
    ensures AlwaysOwned(total, steps[..n]) && Owned(Run(total, steps[..n]))
  {
    hide Owned, Run;
    forall m | 0 <= m <= n ensures Owned(Run(total, steps[..n][..m])) {
      assert steps[..n][..m] == steps[..m];
    }
  }

  lemma {:induction false} OwnedNoWrap(total: nat, steps: seq<Step>)
    requires 0 < total < WRAP && AlwaysOwned(total, steps)
    ensures NoWrapRun(total, steps)
  {
    hide Owned, Do, Inv, NoWrap, AlwaysOwned;
    if steps != [] {
      var last := |steps| - 1;
      var front := steps[..last];
      PrefixOwned(total, steps, last);
      PrefixOwned(total, steps, |steps|);
      assert steps[..|steps|] == steps;
      OwnedNoWrap(total, front);
      RunOwned(total, front);
      RunNext(total, front);
      StepOwned(Run(total, front), steps[last]);
      forall n | 0 <= n < |steps| ensures NoWrap(Run(total, steps[..n]), steps[n]) {
        assert n < last ==> front[..n] == steps[..n] && front[n] == steps[n];
      }
    }
  }

  /** Every state of a run keeps the partition if and only if the run never wraps the counter. */
  lemma RunOwnedExact(total: nat, steps: seq<Step>)
    requires 0 < total < WRAP
    ensures AlwaysOwned(total, steps) <==> NoWrapRun(total, steps)
  {
    hide Owned, Inv, NoWrapRun, Run;
    if NoWrapRun(total, steps) {
      forall n | 0 <= n <= |steps| ensures Owned(Run(total, steps[..n])) {
        PrefixNoWrap(total, steps, n);
        RunOwned(total, steps[..n]);
      }
    }
    if AlwaysOwned(total, steps) {
      OwnedNoWrap(total, steps);
    }
  }

  lemma StartInv(total: nat)
    ensures Inv(Start(total))
  {
    Q.StartInv();
    var y := Start(total);
    assert Q.START.chain[1..] == [] && Q.Contents(y.queue) == [];
    forall t ensures Transit(y.queue, t).None? && ClientOf(y, t).Resting? && Q.PhaseOf(y.queue, t).Idle? {}
    forall p: Page | p < total ensures Somewhere(y, p) {
      assert At(y, p, Unused);
    }
    assert Up(y) == {} && Down(y) == {};
  }
}
