/**
 The per-core task queue (executor_percore.go): ten lists and a 16-bit map of the non-empty ones. The
 map is represented by the set of its set bits.
 */
module TaskQueue {
  import opened Bytes
  import opened PriorityLevels

  const WIDTH := 16
  type Bitmap = b: set<nat> | forall p :: p in b ==> p < WIDTH

  /** `bits.TrailingZeros16`: the lowest set bit, 16 when there is none. */
  function TrailingZeros16(b: Bitmap, from: nat := 0): (p: nat)
    requires from <= WIDTH
    ensures from <= p <= WIDTH
    ensures forall q :: from <= q < p ==> q !in b
    ensures p < WIDTH ==> p in b
    decreases WIDTH - from
  {
    if from == WIDTH || from in b then from else TrailingZeros16(b, from + 1)
  }

  /** Bit p is set exactly when level p is not empty; the upper six bits are never set. */
  ghost predicate Agrees(b: Bitmap, ls: seq<seq<Task>>) {
    |ls| == LEVELS && forall p :: p in b <==> 0 <= p < LEVELS && ls[p] != []
  }

  class TaskQueue {
    const queues: array<seq<Task>>
    var bitmap: Bitmap
    var starvationCheck: int
    const starvationTimeout: int
    const checkInterval: int

    ghost predicate Valid()
      reads this, queues
    {
      queues.Length == LEVELS && Agrees(bitmap, queues[..])
    }

    ghost function Levels(): PriorityLevels.Levels
      requires Valid()
      reads this, queues
    {
      queues[..]
    }

    constructor (timeout: int)
      ensures Valid() && fresh(queues) && starvationTimeout == timeout && checkInterval == 10_000_000
      ensures Levels() == seq(LEVELS, _ => [])
    {
      queues := new seq<Task>[LEVELS](_ => []);
      bitmap, starvationCheck, starvationTimeout, checkInterval := {}, 0, timeout, 10_000_000;
      new;
      assert queues[..] == seq(LEVELS, _ => []);
    }

    method Push(task: Task)
      requires Valid()
      modifies this`bitmap, queues
      ensures Valid() && Levels() == PushTo(old(Levels()), task)
    {
      var p: nat := if task.priority < 0 then 0 else if task.priority > LEVELS - 1 then LEVELS - 1 else task.priority;
      var item := task.(priority := p);
      var wasEmpty := queues[p] == [];
      queues[p] := queues[p] + [item];
      if wasEmpty {
        bitmap := bitmap + {p};
      }
    }

    /** The oldest task of the best non-empty level, after a starvation check that is due. */
    method Pop(now: int) returns (r: Option<Task>)
      requires Valid()
      modifies this`bitmap, this`starvationCheck, queues
      ensures Valid()
      ensures var due := starvationTimeout > 0 && now - old(starvationCheck) > checkInterval;
              && (r, Levels()) == Apply(old(Levels()), PriorityLevels.Pop(due, now, starvationTimeout))
              && starvationCheck == if due then now else old(starvationCheck)
    {
      hide Promote, PopFrom, Agrees;
      if starvationTimeout > 0 && now - starvationCheck > checkInterval {
        starvationCheck := now;
        PromoteStarvedTasks(now);
      }
      r := TakeBest();
    }

    method TakeBest() returns (r: Option<Task>)
      requires Valid()
      modifies this`bitmap, queues
      ensures Valid() && (r, Levels()) == PopFrom(old(Levels()))
    {
      if bitmap == {} {
        return None;
      }
      var p := TrailingZeros16(bitmap);
      r := Some(queues[p][0]);
      ghost var ls := Levels();
      assert Best(ls, 0) == p;
      queues[p] := queues[p][1..];
      if queues[p] == [] {
        bitmap := bitmap - {p};
      }
    }

    method PromoteStarvedTasks(now: int)
      requires Valid()
      modifies this`bitmap, queues
      ensures Valid() && Levels() == Promote(old(Levels()), now, starvationTimeout)
    {
      hide PromoteLevel;
      if starvationTimeout <= 0 {
        return;
      }
      ghost var was := Levels();
      var p := 1;
      while p < LEVELS
        invariant 1 <= p <= LEVELS && Valid()
        invariant Levels() == PromoteUpTo(was, p, now, starvationTimeout)
      {
        PromoteOneLevel(p, now);
        p := p + 1;
      }
    }

    /** The inner loop: starved tasks leave the level one by one and join level 0. */
    method PromoteOneLevel(p: nat, now: int)
      requires Valid() && 0 < p < LEVELS
      modifies this`bitmap, queues
      ensures Valid() && Levels() == PromoteLevel(old(Levels()), p, now, starvationTimeout)
    {
      hide Agrees, Partly, Survivors, Promoted, PromoteLevel;
      ghost var was, k := Levels(), 0;
      PartlyNone(was, p, now, starvationTimeout);
      var i, n := 0, |queues[p]|;
      while i < n
        invariant Valid() && 0 <= i <= n == |queues[p]| && k <= |was[p]|
        invariant i == Kept(was, p, k, now, starvationTimeout) && n - i == |was[p]| - k
        invariant Levels() == Partly(was, p, k, now, starvationTimeout)
        decreases n - i
      {
        PartlyStep(was, p, k, now, starvationTimeout);
        if now - queues[p][i].submitTime > starvationTimeout {
          MoveUp(p, i);
          n := n - 1;
        } else {
          i := i + 1;
        }
        k := k + 1;
      }
      PartlyAll(was, p, now, starvationTimeout);
    }

    method MoveUp(p: nat, i: nat)
      requires Valid() && 0 < p < LEVELS && i < |queues[p]|
      modifies this`bitmap, queues
      ensures Valid() && Levels() == MovedUp(old(Levels()), p, i)
    {
      hide Agrees;
      var item := queues[p][i];
      RemoveAt(p, i);
      AddToLevel0(item.(priority := 0));
    }

    method RemoveAt(p: nat, i: nat)
      requires Valid() && p < LEVELS && i < |queues[p]|
      modifies this`bitmap, queues
      ensures Valid() && Levels() == old(Levels())[p := old(queues[p])[..i] + old(queues[p])[i + 1..]]
    {
      ghost var ls := Levels();
      var rest := queues[p][..i] + queues[p][i + 1..];
      queues[p] := rest;
      if queues[p] == [] {
        bitmap := bitmap - {p};
      }
    }

    method AddToLevel0(item: Task)
      requires Valid()
      modifies this`bitmap, queues
      ensures Valid() && Levels() == old(Levels())[0 := old(queues[0]) + [item]]
    {
      var wasEmpty := queues[0] == [];
      queues[0] := queues[0] + [item];
      if wasEmpty {
        bitmap := bitmap + {0};
      }
    }
  }

  /** Level `p` with its first `k` tasks examined. */
  ghost function Partly(ls: PriorityLevels.Levels, p: nat, k: nat, now: int, timeout: int): PriorityLevels.Levels
    requires 0 < p < LEVELS && k <= |ls[p]|
  {
    ls[0 := ls[0] + Promoted(ls[p][..k], now, timeout)][p := Survivors(ls[p][..k], now, timeout) + ls[p][k..]]
  }

  ghost function Kept(ls: PriorityLevels.Levels, p: nat, k: nat, now: int, timeout: int): nat
    requires 0 < p < LEVELS && k <= |ls[p]|
  {
    |Survivors(ls[p][..k], now, timeout)|
  }

  /** Task `i` of level `p` goes to the end of level 0. */
  ghost function MovedUp(ls: PriorityLevels.Levels, p: nat, i: nat): PriorityLevels.Levels
    requires 0 < p < LEVELS && i < |ls[p]|
  {
    ls[p := ls[p][..i] + ls[p][i + 1..]][0 := ls[0] + [ls[p][i].(priority := 0)]]
  }

  lemma PartlyNone(ls: PriorityLevels.Levels, p: nat, now: int, timeout: int)
    requires 0 < p < LEVELS
    ensures Partly(ls, p, 0, now, timeout) == ls && Kept(ls, p, 0, now, timeout) == 0
  {
    assert ls[0] + [] == ls[0] && [] + ls[p][0..] == ls[p];
  }

  lemma PartlyAll(ls: PriorityLevels.Levels, p: nat, now: int, timeout: int)
    requires 0 < p < LEVELS
    ensures Partly(ls, p, |ls[p]|, now, timeout) == PromoteLevel(ls, p, now, timeout)
  {
    hide Survivors, Promoted;
    assert ls[p][..|ls[p]|] == ls[p];
    assert Survivors(ls[p], now, timeout) + ls[p][|ls[p]|..] == Survivors(ls[p], now, timeout);
  }

  lemma PartlyStep(ls: PriorityLevels.Levels, p: nat, k: nat, now: int, timeout: int)
    requires 0 < p < LEVELS && k < |ls[p]|
    ensures var m, m', t := Partly(ls, p, k, now, timeout), Partly(ls, p, k + 1, now, timeout), ls[p][k];
            var i := Kept(ls, p, k, now, timeout);
            && i < |m[p]| && m[p][i] == t
            && (if Starved(t, now, timeout) then m' == MovedUp(m, p, i) && Kept(ls, p, k + 1, now, timeout) == i
                else m' == m && Kept(ls, p, k + 1, now, timeout) == i + 1)
  {
    assert ls[p][..k + 1][..k] == ls[p][..k];
    assert ls[p][k..] == [ls[p][k]] + ls[p][k + 1..];
    var m, m', t := Partly(ls, p, k, now, timeout), Partly(ls, p, k + 1, now, timeout), ls[p][k];
    var i := Kept(ls, p, k, now, timeout);
    if Starved(t, now, timeout) {
      assert m'[0] == m[0] + [t.(priority := 0)];
      assert m[p][..i] + m[p][i + 1..] == m'[p];
    } else {
      assert m'[p] == m[p] && m'[0] == m[0];
    }
  }
}
