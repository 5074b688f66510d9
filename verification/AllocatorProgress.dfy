/**
 Allocating and freeing pages come to an end (page_manager.go): alone, a thread gets the page that has been
 free for longest, or else the next unused one, and is refused only when there is none.
 */
module AllocatorProgress {
  import opened Bytes
  import opened PageOwnership
  import Q = LockFreeQueue
  import P = QueueProgress

  /** Thread `t` takes these steps and no other thread runs. */
  ghost function Solo(y: System, t: Thread, actions: seq<Action>): System
    decreases |actions|
  {
    if actions == [] then y else Solo(Do(y, t, actions[0]), t, actions[1..])
  }

  lemma {:induction false} SoloAppend(y: System, t: Thread, a: seq<Action>, b: seq<Action>)
    ensures Solo(y, t, a + b) == Solo(Solo(y, t, a), t, b)
    decreases |a|
  {
    hide Do;
    if a == [] {
      assert a + b == b;
    } else {
      SoloAppend(Do(y, t, a[0]), t, a[1..], b);
      assert (a + b)[1..] == a[1..] + b;
    }
  }

  lemma SoloOne(y: System, t: Thread, a: Action)
    ensures Solo(y, t, [a]) == Do(y, t, a)
  {
    hide Do;
    assert [a][1..] == [];
  }

  lemma StepOK(y: System, t: Thread, a: Action)
    requires Inv(y) && !a.Bump?
    ensures Inv(Do(y, t, a))
  {
    hide Inv, Do;
    StepInv(y, Step(t, a));
  }

  /** The next step of the queue operation a thread is in. */
  ghost function Next(y: System, t: Thread): Action {
    QueueStep(P.Fit(Q.PhaseOf(y.queue, t)))
  }

  lemma FitContinues(p: Q.Phase)
    ensures !P.Fit(p).StartEnqueue? && !P.Fit(p).StartDequeue?
  {
  }

  /** One step of a dequeue: it goes on with the same queue, or ends with its first page, or with an empty queue. */
  lemma TakingStep(y: System, t: Thread)
    requires Inv(y) && ClientOf(y, t).Taking? && P.Fresh(y.queue, Q.PhaseOf(y.queue, t))
    ensures var y' := Do(y, t, Next(y, t));
            var p, p' := Q.PhaseOf(y.queue, t), Q.PhaseOf(y'.queue, t);
            && Inv(y') && y'.next == y.next && y'.used == y.used && y'.total == y.total
            && !P.Ended(p) && !Q.Enqueues(p)
            && (ClientOf(y', t).Taking? ==>
                  && P.Nearer(y.queue, p, y'.queue, p') && P.Fresh(y'.queue, p')
                  && Q.Contents(y'.queue) == Q.Contents(y.queue) && y'.holder == y.holder)
            && (!ClientOf(y', t).Taking? ==> TakenBy(y, y', t))
  {
    hide Q.Inv, Q.Contents, Owned, Counted, P.Fit, P.Nearer, P.Fresh, Q.Do;
    StepOK(y, t, Next(y, t));
    FitContinues(Q.PhaseOf(y.queue, t));
    ClientAt(y, t);
    Q.InvParts(y.queue);
    P.DequeueNearer(y.queue, t);
    TakerStep(y.queue, t, P.Fit(Q.PhaseOf(y.queue, t)));
    if P.Ended(Q.PhaseOf(Do(y, t, Next(y, t)).queue, t)) {
      P.DequeueLast(y.queue, t);
    }
  }

  /** The dequeue of an allocation is over. */
  ghost predicate TakenBy(y: System, y': System, t: Thread) {
    var was, now := Q.Contents(y.queue), Q.Contents(y'.queue);
    && y'.next == y.next && y'.used == y.used && y'.total == y.total
    && if was == [] then ClientOf(y', t).Bumping? && now == [] && y'.holder == y.holder
       else ClientOf(y', t) == Counting(was[0]) && now == was[1..] && y'.holder == y.holder[was[0] := t]
  }

  lemma {:induction false} TakingEnds(y: System, t: Thread) returns (steps: seq<Action>)
    requires Inv(y) && ClientOf(y, t).Taking? && P.Fresh(y.queue, Q.PhaseOf(y.queue, t))
    ensures Inv(Solo(y, t, steps)) && TakenBy(y, Solo(y, t, steps), t)
    decreases P.Stale(y.queue, Q.PhaseOf(y.queue, t)), P.Lag(y.queue, Q.PhaseOf(y.queue, t)),
      P.Rank(Q.PhaseOf(y.queue, t))
  {
    hide Inv, Do, Q.Contents, Solo, P.Stale, P.Lag, P.Rank, P.Fresh;
    var a := Next(y, t);
    var y1 := Do(y, t, a);
    TakingStep(y, t);
    SoloOne(y, t, a);
    if !ClientOf(y1, t).Taking? {
      return [a];
    }
    var rest := TakingEnds(y1, t);
    SoloAppend(y, t, [a], rest);
    return [a] + rest;
  }

  /** The enqueue of a freed page is over. */
  ghost predicate GivenBy(y: System, y': System, t: Thread, more: seq<Page>) {
    && y'.next == y.next && y'.used == y.used && y'.total == y.total && y'.holder == y.holder
    && ClientOf(y', t).Uncounting? && Q.Contents(y'.queue) == Q.Contents(y.queue) + more
  }

  ghost function ToLink(y: System, t: Thread): seq<Page> {
    if Transit(y.queue, t).Some? then [Transit(y.queue, t).value] else []
  }

  lemma PuttingStep(y: System, t: Thread)
    requires Inv(y) && ClientOf(y, t).Putting?
    ensures var y' := Do(y, t, Next(y, t));
            var p, p' := Q.PhaseOf(y.queue, t), Q.PhaseOf(y'.queue, t);
            && Inv(y') && y'.next == y.next && y'.used == y.used && y'.total == y.total && y'.holder == y.holder
            && Q.Enqueues(p)
            && Q.Contents(y'.queue) + ToLink(y', t) == Q.Contents(y.queue) + ToLink(y, t)
            && (ClientOf(y', t).Putting? ==> P.Nearer(y.queue, p, y'.queue, p'))
            && (!ClientOf(y', t).Putting? ==> ClientOf(y', t).Uncounting? && ToLink(y', t) == [])
  {
    hide Q.Inv, Q.Contents, Owned, Counted, P.Fit, P.Nearer, P.Fresh, Q.Do;
    StepOK(y, t, Next(y, t));
    FitContinues(Q.PhaseOf(y.queue, t));
    ClientAt(y, t);
    Q.InvParts(y.queue);
    P.EnqueueNearer(y.queue, t);
    PutterStep(y.queue, t, P.Fit(Q.PhaseOf(y.queue, t)));
  }

  lemma {:induction false} PuttingEnds(y: System, t: Thread) returns (steps: seq<Action>)
    requires Inv(y) && ClientOf(y, t).Putting?
    ensures Inv(Solo(y, t, steps)) && GivenBy(y, Solo(y, t, steps), t, ToLink(y, t))
    decreases P.Stale(y.queue, Q.PhaseOf(y.queue, t)), P.Lag(y.queue, Q.PhaseOf(y.queue, t)),
      P.Rank(Q.PhaseOf(y.queue, t))
  {
    hide Inv, Do, Q.Contents, Solo, P.Stale, P.Lag, P.Rank, ToLink;
    var a := Next(y, t);
    var y1 := Do(y, t, a);
    PuttingStep(y, t);
    SoloOne(y, t, a);
    if !ClientOf(y1, t).Putting? {
      assert Q.Contents(y1.queue) + [] == Q.Contents(y1.queue);
      return [a];
    }
    var rest := PuttingEnds(y1, t);
    SoloAppend(y, t, [a], rest);
    return [a] + rest;
  }

  // ---------------------------------------------------------------- whole calls

  /**
   An allocation that runs alone ends: with the page that has been free for longest, else with the next unused
   page, and without one if and only if there is neither.
   */
  lemma AllocAlone(y: System, t: Thread) returns (steps: seq<Action>)
    requires Inv(y) && ClientOf(y, t).Resting? && y.next + 1 < WRAP
    ensures var y' := Solo(y, t, steps);
            var free := Q.Contents(y.queue);
            && Inv(y') && ClientOf(y', t).Resting?
            && Q.Contents(y'.queue) == (if free == [] then [] else free[1..])
            && y'.next == (if free == [] then y.next + 1 else y.next)
            && y'.holder == (if free != [] then y.holder[free[0] := t]
                             else if y.next < y.total then y.holder[y.next := t] else y.holder)
            && y'.used == y.used + if free != [] || y.next < y.total then 1 else 0
  {
    hide Inv, Do, Q.Contents, Solo;
    var y1 := Do(y, t, StartAlloc);
    Begins(y, t);
    SoloOne(y, t, StartAlloc);
    var take := TakingEnds(y1, t);
    var y2 := Solo(y1, t, take);
    SoloAppend(y, t, [StartAlloc], take);
    AllocLast(y2, t);
    if Q.Contents(y.queue) == [] {
      StepInv(y2, Step(t, Bump));
      var y3 := Do(y2, t, Bump);
      StepOK(y3, t, CountUp);
      SoloOne(y2, t, Bump);
      SoloOne(y3, t, CountUp);
      SoloAppend(y2, t, [Bump], [CountUp]);
      SoloAppend(y, t, [StartAlloc] + take, [Bump] + [CountUp]);
      return [StartAlloc] + take + ([Bump] + [CountUp]);
    } else {
      StepOK(y2, t, CountUp);
      SoloOne(y2, t, CountUp);
      SoloAppend(y, t, [StartAlloc] + take, [CountUp]);
      return [StartAlloc] + take + [CountUp];
    }
  }

  lemma Begins(y: System, t: Thread)
    requires Inv(y) && ClientOf(y, t).Resting?
    ensures var y' := Do(y, t, StartAlloc);
            && Inv(y') && ClientOf(y', t).Taking? && P.Fresh(y'.queue, Q.PhaseOf(y'.queue, t))
            && Q.Contents(y'.queue) == Q.Contents(y.queue)
            && y'.next == y.next && y'.total == y.total && y'.used == y.used && y'.holder == y.holder
  {
    hide Q.Inv, Q.Contents, Owned, Counted, Q.Do;
    StepOK(y, t, StartAlloc);
    ClientAt(y, t);
    StartStep(y.queue, t, Q.StartDequeue);
  }

  lemma AllocLast(y: System, t: Thread)
    requires ClientOf(y, t).Bumping? ==> y.next + 1 < WRAP
    ensures ClientOf(y, t).Counting? ==>
              var y' := Do(y, t, CountUp);
              ClientOf(y', t).Resting? && y' == y.(used := y.used + 1, clients := y'.clients)
    ensures ClientOf(y, t).Bumping? ==>
              var y' := Do(Do(y, t, Bump), t, CountUp);
              && ClientOf(y', t).Resting? && y'.queue == y.queue && y'.next == y.next + 1
              && y'.holder == (if y.next < y.total then y.holder[y.next := t] else y.holder)
              && y'.used == y.used + if y.next < y.total then 1 else 0
    ensures NoWrap(y, Step(t, Bump))
  {
  }

  /** Freeing a held page alone ends with the page at the end of the free list, and nobody holding it. */
  lemma FreeAlone(y: System, t: Thread, page: Page) returns (steps: seq<Action>)
    requires Inv(y) && ClientOf(y, t).Resting? && page in y.holder && y.holder[page] == t
    ensures var y' := Solo(y, t, steps);
            && Inv(y') && ClientOf(y', t).Resting? && y'.next == y.next && y'.used == y.used - 1
            && Q.Contents(y'.queue) == Q.Contents(y.queue) + [page] && y'.holder == y.holder - {page}
  {
    hide Inv, Do, Q.Contents, Solo, ToLink;
    var y1 := Do(y, t, StartFree(page));
    BeginsFree(y, t, page);
    SoloOne(y, t, StartFree(page));
    var put := PuttingEnds(y1, t);
    var y2 := Solo(y1, t, put);
    SoloAppend(y, t, [StartFree(page)], put);
    StepOK(y2, t, CountDown);
    FreeLast(y2, t);
    SoloOne(y2, t, CountDown);
    SoloAppend(y, t, [StartFree(page)] + put, [CountDown]);
    return [StartFree(page)] + put + [CountDown];
  }

  lemma BeginsFree(y: System, t: Thread, page: Page)
    requires Inv(y) && ClientOf(y, t).Resting? && page in y.holder && y.holder[page] == t
    ensures var y' := Do(y, t, StartFree(page));
            && Inv(y') && ClientOf(y', t).Putting? && ToLink(y', t) == [page]
            && Q.Contents(y'.queue) == Q.Contents(y.queue)
            && y'.next == y.next && y'.total == y.total && y'.used == y.used && y'.holder == y.holder - {page}
  {
    hide Q.Inv, Q.Contents, Owned, Counted, Q.Do, Transit;
    StepOK(y, t, StartFree(page));
    ClientAt(y, t);
    StartStep(y.queue, t, Q.StartEnqueue(page));
  }

  lemma FreeLast(y: System, t: Thread)
    requires ClientOf(y, t).Uncounting?
    ensures var y' := Do(y, t, CountDown);
            ClientOf(y', t).Resting? && y' == y.(used := y.used - 1, clients := y'.clients)
  {
  }
}
