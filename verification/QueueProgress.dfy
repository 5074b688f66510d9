/** Operations on the Michael-Scott queue come to an end (lockfree_queue.go): a thread alone finishes from anywhere. */
module QueueProgress {
  import opened Bytes
  import opened LockFreeQueue

  /** Thread `t` takes these steps and no other thread runs. */
  ghost function Solo(s: State, t: Thread, actions: seq<Action>): State
    decreases |actions|
  {
    if actions == [] then s else Solo(Do(s, t, actions[0]), t, actions[1..])
  }

  lemma SoloFirst(s: State, t: Thread, a: Action, rest: seq<Action>)
    ensures Solo(s, t, [a] + rest) == Solo(Do(s, t, a), t, rest)
  {
    hide Do;
    assert ([a] + rest)[1..] == rest;
  }

  /** The step that fits the phase: what the code does next. */
  ghost function Fit(p: Phase): Action {
    match p
    case ENew(_) => LoadTail
    case ETail(_, _) => LoadNext
    case ENext(_, _, _) => Recheck
    case EChecked(_, _, next) => if next.Some? then HelpTail else Link
    case ELinked(_, _) => SwingTail
    case DStart => LoadHead
    case DHead(_) => LoadTail
    case DTail(_, _) => LoadNext
    case DNext(_, _, _, _) => Recheck
    case DChecked(head, tail, next, _) =>
      if next.None? then ReturnEmpty else if head == tail then HelpTail else LoadItem
    case _ => CasHead
  }

  /** What the thread has loaded is still so. */
  ghost predicate Fresh(s: State, p: Phase) {
    match p
    case ETail(_, tail) => tail == s.tail
    case ENext(_, tail, next) => tail == s.tail && next == NextOf(s, tail)
    case EChecked(_, tail, next) => tail == s.tail && next == NextOf(s, tail)
    case DHead(head) => head == s.head
    case DTail(head, tail) => head == s.head && tail == s.tail
    case DNext(head, tail, next, _) => head == s.head && tail == s.tail && next == NextOf(s, head)
    case DChecked(head, tail, next, _) => head == s.head && tail == s.tail && next == NextOf(s, head)
    case DValue(head, _, _) => head == s.head
    case _ => true
  }

  ghost function Stale(s: State, p: Phase): nat {
    if Fresh(s, p) then 0 else 1
  }

  /** Whether the tail has still to be swung. */
  ghost function Lag(s: State, p: Phase): nat {
    if p.ELinked? || Ended(p) || NextOf(s, s.tail).None? then 0 else 1
  }

  ghost predicate Ended(p: Phase) {
    p.Idle? || p.Enqueued? || p.Dequeued? || p.FoundEmpty?
  }

  ghost function Rank(p: Phase): nat {
    match p
    case DStart => 6
    case DHead(_) => 5
    case DTail(_, _) => 4
    case DNext(_, _, _, _) => 3
    case DChecked(_, _, _, _) => 2
    case DValue(_, _, _) => 1
    case ENew(_) => 6
    case ETail(_, _) => 5
    case ENext(_, _, _) => 4
    case EChecked(_, _, _) => 3
    case ELinked(_, _) => 1
    case _ => 0
  }

  /** One step nearer to the end: loaded values are fresh again, or the tail is swung, or the round goes on. */
  ghost predicate Nearer(s: State, p: Phase, s': State, q: Phase) {
    || Stale(s', q) < Stale(s, p)
    || (Stale(s', q) == Stale(s, p) && Lag(s', q) < Lag(s, p))
    || (Stale(s', q) == Stale(s, p) && Lag(s', q) == Lag(s, p) && Rank(q) < Rank(p))
  }

  /** The list ends at the tail or at the node after it. */
  lemma TailLags(s: State)
    requires ListOK(s)
    ensures s.tail in s.pos && (NextOf(s, s.tail).Some? ==> NextOf(s, NextOf(s, s.tail).value).None?)
    ensures s.head != s.tail ==> NextOf(s, s.head).Some?
  {
    assert NodeOK(s, s.tail) && NodeOK(s, s.head) && CellOK(s, s.pos[s.tail] + 1);
    if NextOf(s, s.tail).Some? {
      assert NodeOK(s, NextOf(s, s.tail).value);
    }
  }

  lemma EnqueueNearer(s: State, t: Thread)
    requires ListOK(s) && Enqueues(PhaseOf(s, t))
    ensures var p, s' := PhaseOf(s, t), Do(s, t, Fit(PhaseOf(s, t)));
            var q := PhaseOf(s', t);
            && Nearer(s, p, s', q) && (Enqueues(q) || q.Enqueued?)
            && (!p.ELinked? && Enqueues(q) ==> q.node == p.node)
            && (p.ELinked? <==> q.Enqueued?)
  {
    hide ListOK, Contents;
    TailLags(s);
  }

  lemma DequeueNearer(s: State, t: Thread)
    requires ListOK(s) && !Enqueues(PhaseOf(s, t)) && !Ended(PhaseOf(s, t))
    ensures var p, s' := PhaseOf(s, t), Do(s, t, Fit(PhaseOf(s, t)));
            var q := PhaseOf(s', t);
            && Nearer(s, p, s', q) && !Enqueues(q) && !q.Idle? && !q.Enqueued?
            && (Fresh(s, p) ==> Fresh(s', q))
  {
    hide ListOK, Contents;
    TailLags(s);
  }

  /** An enqueue that runs alone ends, from wherever it stands, with its item at the end of the queue. */
  lemma {:induction false} EnqueueEnds(s: State, t: Thread) returns (steps: seq<Action>)
    requires Inv(s) && Enqueues(PhaseOf(s, t))
    ensures var p, s' := PhaseOf(s, t), Solo(s, t, steps);
            && Inv(s') && PhaseOf(s', t).Enqueued?
            && Contents(s') == Contents(s) + (if p.ELinked? then [] else [ItemOf(s, p.node)])
    decreases Stale(s, PhaseOf(s, t)), Lag(s, PhaseOf(s, t)), Rank(PhaseOf(s, t))
  {
    hide ListOK, ThreadsOK, Contents, Do, Solo, Stale, Lag, Rank, PhaseOK;
    var p := PhaseOf(s, t);
    var s1 := Do(s, t, Fit(p));
    EnqueueNearer(s, t);
    StepRefines(s, t, Fit(p));
    ItemKept(s, t, Fit(p));
    if PhaseOf(s1, t).Enqueued? {
      SoloOne(s, t, Fit(p));
      assert Contents(s) + [] == Contents(s);
      return [Fit(p)];
    }
    var rest := EnqueueEnds(s1, t);
    SoloFirst(s, t, Fit(p), rest);
    return [Fit(p)] + rest;
  }

  lemma SoloOne(s: State, t: Thread, a: Action)
    ensures Solo(s, t, [a]) == Do(s, t, a)
  {
    hide Do;
    SoloFirst(s, t, a, []);
    assert [a] + [] == [a];
  }

  lemma ItemKept(s: State, t: Thread, a: Action)
    requires Inv(s) && Enqueues(PhaseOf(s, t))
    ensures !PhaseOf(s, t).ELinked? ==> ItemOf(Do(s, t, a), PhaseOf(s, t).node) == ItemOf(s, PhaseOf(s, t).node)
  {
    hide ListOK, Contents, Do;
    ThreadAt(s, t);
    OwnKnown(s, PhaseOf(s, t));
    ItemsStay(s, t, a);
  }

  /** How a dequeue ends: with the first item, or without a change. */
  ghost predicate Taken(s: State, s': State, q: Phase) {
    if q.Dequeued? then Contents(s) == [q.item] + Contents(s') else q.FoundEmpty? && Contents(s') == Contents(s)
  }

  /**
   A dequeue that runs alone ends, from wherever it stands. If what it has loaded is still so, in particular
   if it has loaded nothing, it reports an empty queue if and only if the queue is empty.
   */
  lemma {:induction false} DequeueEnds(s: State, t: Thread) returns (steps: seq<Action>)
    requires Inv(s) && !Enqueues(PhaseOf(s, t)) && !Ended(PhaseOf(s, t))
    ensures var s' := Solo(s, t, steps);
            && Inv(s') && Taken(s, s', PhaseOf(s', t))
            && (Fresh(s, PhaseOf(s, t)) ==> (PhaseOf(s', t).FoundEmpty? <==> Contents(s) == []))
    decreases Stale(s, PhaseOf(s, t)), Lag(s, PhaseOf(s, t)), Rank(PhaseOf(s, t))
  {
    hide ListOK, ThreadsOK, Contents, Do, Solo, Stale, Lag, Rank, PhaseOK, Fresh;
    var p := PhaseOf(s, t);
    var s1 := Do(s, t, Fit(p));
    DequeueNearer(s, t);
    StepRefines(s, t, Fit(p));
    if Ended(PhaseOf(s1, t)) {
      SoloOne(s, t, Fit(p));
      DequeueLast(s, t);
      return [Fit(p)];
    }
    DequeueOn(s, t);
    var rest := DequeueEnds(s1, t);
    SoloFirst(s, t, Fit(p), rest);
    return [Fit(p)] + rest;
  }

  lemma DequeueOn(s: State, t: Thread)
    requires Inv(s) && !Enqueues(PhaseOf(s, t)) && !Ended(PhaseOf(s, t))
    requires !Ended(PhaseOf(Do(s, t, Fit(PhaseOf(s, t))), t))
    ensures Contents(Do(s, t, Fit(PhaseOf(s, t)))) == Contents(s)
  {
    hide Inv, Contents;
    StepRefines(s, t, Fit(PhaseOf(s, t)));
  }

  lemma DequeueLast(s: State, t: Thread)
    requires Inv(s) && !Enqueues(PhaseOf(s, t)) && !Ended(PhaseOf(s, t))
    requires Ended(PhaseOf(Do(s, t, Fit(PhaseOf(s, t))), t))
    ensures var s' := Do(s, t, Fit(PhaseOf(s, t)));
            && Taken(s, s', PhaseOf(s', t))
            && (Fresh(s, PhaseOf(s, t)) ==> (PhaseOf(s', t).FoundEmpty? <==> Contents(s) == []))
  {
    hide ThreadsOK, Contents, ListOK;
    var p := PhaseOf(s, t);
    StepRefines(s, t, Fit(p));
    if p.DChecked? && p.next.None? && Fresh(s, p) {
      HeadPast(s);
      NoNext(s, s.head);
    }
  }

  lemma HeadPast(s: State)
    requires ListOK(s)
    ensures PastHead(s, s.head)
  {
  }
}
