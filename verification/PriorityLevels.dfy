/** The ten-level priority queue as a value (executor_percore.go): one FIFO list per level. */
module PriorityLevels {
  import opened Bytes

  const LEVELS := 10

  /** A queued task; `id` stands for its work. */
  datatype Task = Task(id: nat, priority: int, submitTime: int)

  type Levels = ls: seq<seq<Task>> | |ls| == LEVELS witness seq(LEVELS, _ => [])

  function Clamp(p: int): (r: nat)
    ensures r < LEVELS
  {
    if p < 0 then 0 else if p >= LEVELS then LEVELS - 1 else p
  }

  function PushTo(ls: Levels, t: Task): (r: Levels) {
    var p := Clamp(t.priority);
    ls[p := ls[p] + [t.(priority := p)]]
  }

  /** The best non-empty level, `LEVELS` when there is none. */
  function Best(ls: Levels, from: nat): (p: nat)
    requires from <= LEVELS
    ensures from <= p <= LEVELS
    ensures forall q :: from <= q < p ==> ls[q] == []
    ensures p < LEVELS ==> ls[p] != []
    decreases LEVELS - from
  {
    if from == LEVELS || ls[from] != [] then from else Best(ls, from + 1)
  }

  function PopFrom(ls: Levels): (Option<Task>, Levels) {
    var p := Best(ls, 0);
    if p == LEVELS then (None, ls) else (Some(ls[p][0]), ls[p := ls[p][1..]])
  }

  predicate Starved(t: Task, now: int, timeout: int) {
    now - t.submitTime > timeout
  }

  function Survivors(ts: seq<Task>, now: int, timeout: int): seq<Task> {
    if ts == [] then []
    else Survivors(ts[..|ts| - 1], now, timeout) + if Starved(ts[|ts| - 1], now, timeout) then [] else [ts[|ts| - 1]]
  }

  /** The starved tasks of a level, at priority 0. */
  function Promoted(ts: seq<Task>, now: int, timeout: int): seq<Task> {
    if ts == [] then []
    else Promoted(ts[..|ts| - 1], now, timeout) + if Starved(ts[|ts| - 1], now, timeout)
      then [ts[|ts| - 1].(priority := 0)] else []
  }

  /** Promotion of one level. */
  function PromoteLevel(ls: Levels, p: nat, now: int, timeout: int): Levels
    requires 0 < p < LEVELS
  {
    ls[0 := ls[0] + Promoted(ls[p], now, timeout)][p := Survivors(ls[p], now, timeout)]
  }

  /** Promotion of levels 1 up to `n`, in order. */
  function PromoteUpTo(ls: Levels, n: nat, now: int, timeout: int): Levels
    requires 0 < n <= LEVELS
  {
    if n == 1 then ls else PromoteLevel(PromoteUpTo(ls, n - 1, now, timeout), n - 1, now, timeout)
  }

  function Promote(ls: Levels, now: int, timeout: int): Levels {
    if timeout <= 0 then ls else PromoteUpTo(ls, LEVELS, now, timeout)
  }

  // ---------------------------------------------------------------- promotion

  /** How often a piece of work is in a level, at whatever priority. */
  ghost function Count(ts: seq<Task>, id: nat, submitTime: int): nat {
    if ts == [] then 0
    else Count(ts[..|ts| - 1], id, submitTime) + if ts[|ts| - 1].id == id && ts[|ts| - 1].submitTime == submitTime
      then 1 else 0
  }

  ghost function Total(ls: seq<seq<Task>>, id: nat, submitTime: int): nat {
    if ls == [] then 0 else Total(ls[..|ls| - 1], id, submitTime) + Count(ls[|ls| - 1], id, submitTime)
  }

  lemma {:induction false} CountAppend(a: seq<Task>, b: seq<Task>, id: nat, time: int)
    ensures Count(a + b, id, time) == Count(a, id, time) + Count(b, id, time)
  {
    if b == [] {
      assert a + b == a;
    } else {
      CountAppend(a, b[..|b| - 1], id, time);
      assert (a + b)[..|a + b| - 1] == a + b[..|b| - 1];
    }
  }

  lemma CountOne(ts: seq<Task>, t: Task, id: nat, time: int)
    ensures Count(ts + [t], id, time) == Count(ts, id, time) + if t.id == id && t.submitTime == time then 1 else 0
  {
    assert (ts + [t])[..|ts|] == ts;
  }

  lemma {:induction false} LevelConserved(ts: seq<Task>, now: int, timeout: int, id: nat, time: int)
    ensures Count(ts, id, time) == Count(Survivors(ts, now, timeout), id, time)
            + Count(Promoted(ts, now, timeout), id, time)
  {
    if ts != [] {
      var front, t := ts[..|ts| - 1], ts[|ts| - 1];
      LevelConserved(front, now, timeout, id, time);
      CountOne(Survivors(front, now, timeout), t, id, time);
      CountOne(Promoted(front, now, timeout), t.(priority := 0), id, time);
      assert Survivors(front, now, timeout) + [] == Survivors(front, now, timeout);
      assert Promoted(front, now, timeout) + [] == Promoted(front, now, timeout);
    }
  }

  lemma {:induction false} TotalUpdate(ls: seq<seq<Task>>, p: nat, ts: seq<Task>, id: nat, time: int)
    requires p < |ls|
    ensures Total(ls[p := ts], id, time) == Total(ls, id, time) - Count(ls[p], id, time) + Count(ts, id, time)
  {
    var n := |ls| - 1;
    if p < n {
      TotalUpdate(ls[..n], p, ts, id, time);
      assert ls[p := ts][..n] == ls[..n][p := ts];
    } else {
      assert ls[p := ts][..n] == ls[..n];
    }
  }

  lemma PromoteLevelConserves(ls: Levels, p: nat, now: int, timeout: int, id: nat, time: int)
    requires 0 < p < LEVELS
    ensures Total(PromoteLevel(ls, p, now, timeout), id, time) == Total(ls, id, time)
  {
    hide Total, Count, Survivors, Promoted;
    var up, rest := Promoted(ls[p], now, timeout), Survivors(ls[p], now, timeout);
    var ls' := ls[0 := ls[0] + up];
    TotalUpdate(ls, 0, ls[0] + up, id, time);
    TotalUpdate(ls', p, rest, id, time);
    CountAppend(ls[0], up, id, time);
    LevelConserved(ls[p], now, timeout, id, time);
  }

  /** Promotion conserves the tasks: each is there as often as before. */
  lemma {:induction false} PromoteConserves(ls: Levels, n: nat, now: int, timeout: int, id: nat, time: int)
    requires 0 < n <= LEVELS
    ensures Total(PromoteUpTo(ls, n, now, timeout), id, time) == Total(ls, id, time)
  {
    hide Total, PromoteLevel;
    if n > 1 {
      PromoteConserves(ls, n - 1, now, timeout, id, time);
      PromoteLevelConserves(PromoteUpTo(ls, n - 1, now, timeout), n - 1, now, timeout, id, time);
    }
  }

  /** Survivors are exactly the tasks that did not time out. */
  lemma {:induction false} SurvivorsFresh(ts: seq<Task>, now: int, timeout: int)
    ensures forall t :: t in Survivors(ts, now, timeout) <==> t in ts && !Starved(t, now, timeout)
  {
    if ts != [] {
      SurvivorsFresh(ts[..|ts| - 1], now, timeout);
      assert ts == ts[..|ts| - 1] + [ts[|ts| - 1]];
    }
  }

  /** What promotion does to each level: level 0 only grows at the end, lower levels keep their survivors in order. */
  lemma {:induction false} PromoteShape(ls: Levels, n: nat, now: int, timeout: int)
    requires 0 < n <= LEVELS
    ensures var r := PromoteUpTo(ls, n, now, timeout);
            && (forall p :: 1 <= p < n ==> r[p] == Survivors(ls[p], now, timeout))
            && (forall p :: n <= p < LEVELS ==> r[p] == ls[p])
            && |ls[0]| <= |r[0]| && r[0][..|ls[0]|] == ls[0]
  {
    hide Survivors, Promoted;
    if n > 1 {
      PromoteShape(ls, n - 1, now, timeout);
      var m := PromoteUpTo(ls, n - 1, now, timeout);
      assert (m[0] + Promoted(m[n - 1], now, timeout))[..|ls[0]|] == m[0][..|ls[0]|];
    }
  }

  /** `ts` holds the tasks of `was` that were submitted no longer ago than the timeout. */
  ghost predicate SameBut(ts: seq<Task>, was: seq<Task>, now: int, timeout: int) {
    forall t :: t in ts <==> t in was && now - t.submitTime <= timeout
  }

  /**
   After promotion no task waits below level 0 that was submitted longer ago than the timeout, and every other
   one waits where it was; without a timeout nothing moves.
   */
  lemma NoneStarved(ls: Levels, now: int, timeout: int)
    ensures var r := Promote(ls, now, timeout);
            && (timeout <= 0 ==> r == ls)
            && (timeout > 0 ==> forall p :: 1 <= p < LEVELS ==> SameBut(r[p], ls[p], now, timeout))
            && (forall id, time :: Total(r, id, time) == Total(ls, id, time))
  {
    hide Promote, Total;
    var r := Promote(ls, now, timeout);
    if timeout > 0 {
      forall p | 1 <= p < LEVELS ensures SameBut(r[p], ls[p], now, timeout) {
        StaysBelow(ls, p, now, timeout);
      }
    }
    forall id, time ensures Total(r, id, time) == Total(ls, id, time) {
      PromoteConservesAll(ls, now, timeout, id, time);
    }
    NoTimeout(ls, now, timeout);
  }

  lemma NoTimeout(ls: Levels, now: int, timeout: int)
    ensures timeout <= 0 ==> Promote(ls, now, timeout) == ls
  {
  }

  lemma PromoteConservesAll(ls: Levels, now: int, timeout: int, id: nat, time: int)
    ensures Total(Promote(ls, now, timeout), id, time) == Total(ls, id, time)
  {
    hide PromoteUpTo, Total;
    PromoteConserves(ls, LEVELS, now, timeout, id, time);
  }

  lemma StaysBelow(ls: Levels, p: nat, now: int, timeout: int)
    requires 1 <= p < LEVELS && timeout > 0
    ensures SameBut(Promote(ls, now, timeout)[p], ls[p], now, timeout)
  {
    hide PromoteUpTo, Survivors;
    PromoteShape(ls, LEVELS, now, timeout);
    SurvivorsFresh(ls[p], now, timeout);
  }

  // ---------------------------------------------------------------- runs

  /** A push, or a pop that may promote first. */
  datatype Op = Push(task: Task) | Pop(check: bool, now: int, timeout: int)

  function Apply(ls: Levels, op: Op): (Option<Task>, Levels) {
    match op
    case Push(t) => (None, PushTo(ls, t))
    case Pop(check, now, timeout) => PopFrom(if check then Promote(ls, now, timeout) else ls)
  }

  /** The tasks a run serves, in order. */
  ghost function Served(ls: Levels, ops: seq<Op>): seq<Task>
    decreases |ops|
  {
    if ops == [] then []
    else
      var r := Apply(ls, ops[0]);
      (if r.0.Some? then [r.0.value] else []) + Served(r.1, ops[1..])
  }

  ghost function Pops(ops: seq<Op>): nat {
    if ops == [] then 0 else (if ops[0].Pop? then 1 else 0) + Pops(ops[1..])
  }

  lemma PopServesLevel0(ls: Levels, op: Op)
    requires op.Pop? && ls[0] != []
    ensures var r := Apply(ls, op);
            r.0 == Some(ls[0][0]) && |r.1[0]| >= |ls[0]| - 1 && r.1[0][..|ls[0]| - 1] == ls[0][1..]
  {
    hide PromoteUpTo;
    var m := if op.check then Promote(ls, op.now, op.timeout) else ls;
    PromoteShape(ls, LEVELS, op.now, op.timeout);
    assert |m[0]| >= |ls[0]| && m[0][..|ls[0]|] == ls[0];
    assert m[0][0] == ls[0][0];
    assert Best(m, 0) == 0;
    assert m[0][1..][..|ls[0]| - 1] == m[0][..|ls[0]|][1..];
  }

  /**
   Bounded waiting: the task at position `i` of level 0 is the one that pop number `i + 1` from now
   returns, whatever is pushed and promoted in between.
   */
  lemma {:induction false} Level0Served(ls: Levels, ops: seq<Op>, i: nat)
    requires i < |ls[0]| && i < Pops(ops)
    ensures i < |Served(ls, ops)| && Served(ls, ops)[i] == ls[0][i]
    decreases |ops|
  {
    hide Best, Promote, Clamp;
    var r := Apply(ls, ops[0]);
    if ops[0].Push? {
      assert r.1[0][..|ls[0]|] == ls[0];
      assert r.1[0][i] == ls[0][i];
      Level0Served(r.1, ops[1..], i);
    } else {
      PopServesLevel0(ls, ops[0]);
      if i > 0 {
        assert r.1[0][..|ls[0]| - 1][i - 1] == ls[0][1..][i - 1];
        Level0Served(r.1, ops[1..], i - 1);
      }
    }
  }

  ghost function After(ls: Levels, ops: seq<Op>): Levels
    decreases |ops|
  {
    if ops == [] then ls else After(Apply(ls, ops[0]).1, ops[1..])
  }

  ghost function PushedCount(ops: seq<Op>, id: nat, time: int): nat {
    if ops == [] then 0
    else
      (if ops[0].Push? && ops[0].task.id == id && ops[0].task.submitTime == time then 1 else 0)
      + PushedCount(ops[1..], id, time)
  }

  lemma ApplyConserves(ls: Levels, op: Op, id: nat, time: int)
    ensures var r := Apply(ls, op);
            Total(r.1, id, time) + (if r.0.Some? && r.0.value.id == id && r.0.value.submitTime == time then 1 else 0)
            == Total(ls, id, time) + if op.Push? && op.task.id == id && op.task.submitTime == time then 1 else 0
  {
    hide Total, PromoteUpTo, Best;
    match op
    case Push(t) =>
      var p := Clamp(t.priority);
      TotalUpdate(ls, p, ls[p] + [t.(priority := p)], id, time);
      CountOne(ls[p], t.(priority := p), id, time);
    case Pop(check, now, timeout) =>
      var m := if check then Promote(ls, now, timeout) else ls;
      PromoteConserves(ls, LEVELS, now, timeout, id, time);
      var p := Best(m, 0);
      if p < LEVELS {
        TotalUpdate(m, p, m[p][1..], id, time);
        assert m[p] == [m[p][0]] + m[p][1..];
        CountAppend([m[p][0]], m[p][1..], id, time);
        CountOne([], m[p][0], id, time);
        assert [] + [m[p][0]] == [m[p][0]];
      }
  }

  /** Over every run, what was there and what was pushed is what was served and what is left. */
  lemma {:induction false} RunConserves(ls: Levels, ops: seq<Op>, id: nat, time: int)
    ensures Count(Served(ls, ops), id, time) + Total(After(ls, ops), id, time)
            == Total(ls, id, time) + PushedCount(ops, id, time)
    decreases |ops|
  {
    hide Total, Count, Apply;
    if ops != [] {
      var r := Apply(ls, ops[0]);
      ApplyConserves(ls, ops[0], id, time);
      RunConserves(r.1, ops[1..], id, time);
      if r.0.Some? {
        CountAppend([r.0.value], Served(r.1, ops[1..]), id, time);
        CountOne([], r.0.value, id, time);
        assert [] + [r.0.value] == [r.0.value];
      } else {
        assert [] + Served(r.1, ops[1..]) == Served(r.1, ops[1..]);
      }
    }
    NoneCounted(id, time);
  }

  lemma NoneCounted(id: nat, time: int)
    ensures Count([], id, time) == 0
  {
  }
}
