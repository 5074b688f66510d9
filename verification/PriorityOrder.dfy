/** Who is served before whom: own level, better level first, first come first served (executor_percore.go). */
module PriorityOrder {
  import opened Bytes
  import opened PriorityLevels

  /** A priority from 0 to 9 is a level of its own; others go to the nearest level. Nothing else moves. */
  lemma PushJoins(ls: Levels, t: Task)
    ensures var p := if t.priority < 0 then 0 else if t.priority > 9 then 9 else t.priority;
            var r := PushTo(ls, t);
            && r[p] == ls[p] + [t.(priority := p)]
            && forall q :: 0 <= q < LEVELS && q != p ==> r[q] == ls[q]
  {
  }

  /** A pop takes the first task of a level when all better levels are empty, and none only from an empty queue. */
  lemma PopsBest(ls: Levels)
    ensures var r := PopFrom(ls);
            if r.0.None? then r.1 == ls && forall p :: 0 <= p < LEVELS ==> ls[p] == []
            else exists p :: 0 <= p < LEVELS && ls[p] == [r.0.value] + r.1[p]
                             && (forall q :: 0 <= q < p ==> ls[q] == [])
                             && (forall q :: 0 <= q < LEVELS && q != p ==> r.1[q] == ls[q])
  {
    var r := PopFrom(ls);
    if r.0.Some? {
      var p := Best(ls, 0);
      assert ls[p] == [r.0.value] + r.1[p];
    }
  }

  // ---------------------------------------------------------------- first come first served

  /** No task of `ts` has this id. */
  ghost predicate Without(ts: seq<Task>, id: nat) {
    forall j :: 0 <= j < |ts| ==> ts[j].id != id
  }

  /** A task with id `b` at level `q` waits behind the one at position `i` of level `p`, also after promotions. */
  ghost predicate Behind(ls: Levels, p: nat, i: nat, q: nat, j: nat)
    requires p < LEVELS && i < |ls[p]| && q < LEVELS && j < |ls[q]|
  {
    if p == 0 then q > 0 || i < j else q == p && i < j && ls[p][i].submitTime <= ls[q][j].submitTime
  }

  /** Every task `b` waits behind the task `a` at position `i` of level `p`. */
  ghost predicate AheadAt(ls: Levels, a: nat, b: nat, p: nat, i: nat) {
    && p < LEVELS && i < |ls[p]| && ls[p][i].id == a
    && forall q, j :: 0 <= q < LEVELS && 0 <= j < |ls[q]| && ls[q][j].id == b ==> Behind(ls, p, i, q, j)
  }

  ghost predicate Ahead(ls: Levels, a: nat, b: nat) {
    exists p: nat, i: nat :: AheadAt(ls, a, b, p, i)
  }

  lemma {:induction false} SurvivorsAppend(a: seq<Task>, b: seq<Task>, now: int, timeout: int)
    ensures Survivors(a + b, now, timeout) == Survivors(a, now, timeout) + Survivors(b, now, timeout)
  {
    if b == [] {
      assert a + b == a;
    } else {
      SurvivorsAppend(a, b[..|b| - 1], now, timeout);
      assert (a + b)[..|a + b| - 1] == a + b[..|b| - 1];
    }
  }

  lemma {:induction false} PromotedAppend(a: seq<Task>, b: seq<Task>, now: int, timeout: int)
    ensures Promoted(a + b, now, timeout) == Promoted(a, now, timeout) + Promoted(b, now, timeout)
  {
    if b == [] {
      assert a + b == a;
    } else {
      PromotedAppend(a, b[..|b| - 1], now, timeout);
      assert (a + b)[..|a + b| - 1] == a + b[..|b| - 1];
    }
  }

  /** The tasks that survive or are promoted come from the level. */
  lemma {:induction false} NoneAppears(ts: seq<Task>, now: int, timeout: int, id: nat)
    requires Without(ts, id)
    ensures Without(Survivors(ts, now, timeout), id) && Without(Promoted(ts, now, timeout), id)
  {
    if ts != [] {
      NoneAppears(ts[..|ts| - 1], now, timeout, id);
    }
  }

  /** Younger tasks with this id are not promoted when an older one has not timed out. */
  lemma {:induction false} YoungerSurvive(ts: seq<Task>, now: int, timeout: int, id: nat, time: int)
    requires now - time <= timeout
    requires forall j :: 0 <= j < |ts| && ts[j].id == id ==> time <= ts[j].submitTime
    ensures Without(Promoted(ts, now, timeout), id)
    ensures forall j :: 0 <= j < |Survivors(ts, now, timeout)| && Survivors(ts, now, timeout)[j].id == id ==>
              time <= Survivors(ts, now, timeout)[j].submitTime
  {
    if ts != [] {
      YoungerSurvive(ts[..|ts| - 1], now, timeout, id, time);
    }
  }

  /** Promotion of the level in which `a` waits in front of `b`. */
  lemma PromotesInOrder(ls: Levels, p: nat, i: nat, now: int, timeout: int, a: nat, b: nat)
    requires 0 < p < LEVELS && AheadAt(ls, a, b, p, i)
    ensures Ahead(PromoteLevel(ls, p, now, timeout), a, b)
  {
    hide Survivors, Promoted;
    var ts, x, r := ls[p], ls[p][i], PromoteLevel(ls, p, now, timeout);
    var front, back := ts[..i], ts[i + 1..];
    assert ts == front + [x] + back;
    SurvivorsAppend(front + [x], back, now, timeout);
    SurvivorsAppend(front, [x], now, timeout);
    PromotedAppend(front + [x], back, now, timeout);
    PromotedAppend(front, [x], now, timeout);
    OneTask(x, now, timeout);
    forall j | 0 <= j < |front| ensures front[j].id != b {
      assert ts[j] == front[j];
    }
    NoneAppears(front, now, timeout, b);
    forall q, j | 0 <= q < LEVELS && 0 <= j < |ls[q]| && ls[q][j].id == b ensures q == p && i < j {
      assert Behind(ls, p, i, q, j);
    }
    if Starved(x, now, timeout) {
      var i' := |ls[0]| + |Promoted(front, now, timeout)|;
      assert r[0][i'].id == a;
      assert AheadAt(r, a, b, 0, i');
    } else {
      forall j | 0 <= j < |back| && back[j].id == b ensures x.submitTime <= back[j].submitTime {
        assert ts[i + 1 + j] == back[j];
        assert Behind(ls, p, i, p, i + 1 + j);
      }
      YoungerSurvive(back, now, timeout, b, x.submitTime);
      var i' := |Survivors(front, now, timeout)|;
      assert r[p] == Survivors(front, now, timeout) + [x] + Survivors(back, now, timeout);
      assert r[p][i'] == x;
      assert AheadAt(r, a, b, p, i');
    }
  }

  lemma OneTask(x: Task, now: int, timeout: int)
    ensures Survivors([x], now, timeout) == if Starved(x, now, timeout) then [] else [x]
    ensures Promoted([x], now, timeout) == if Starved(x, now, timeout) then [x.(priority := 0)] else []
  {
    assert [x][..0] == [];
  }

  /** Promotion of another level, or of any level when `a` is at level 0. */
  lemma PromotesBehind(ls: Levels, k: nat, p: nat, i: nat, now: int, timeout: int, a: nat, b: nat)
    requires 0 < k < LEVELS && k != p && AheadAt(ls, a, b, p, i)
    ensures AheadAt(PromoteLevel(ls, k, now, timeout), a, b, p, i)
  {
    hide Survivors, Promoted;
    var r := PromoteLevel(ls, k, now, timeout);
    if p > 0 {
      forall j | 0 <= j < |ls[k]| ensures ls[k][j].id != b {}
      NoneAppears(ls[k], now, timeout, b);
    }
    forall q, j | 0 <= q < LEVELS && 0 <= j < |r[q]| && r[q][j].id == b ensures Behind(r, p, i, q, j) {
      if q != k && j < |ls[q]| {
        assert r[q][j] == ls[q][j];
        assert Behind(ls, p, i, q, j);
      }
    }
  }

  lemma {:induction false} PromoteKeepsAhead(ls: Levels, n: nat, now: int, timeout: int, a: nat, b: nat)
    requires 0 < n <= LEVELS && Ahead(ls, a, b)
    ensures Ahead(PromoteUpTo(ls, n, now, timeout), a, b)
  {
    hide PromoteLevel, AheadAt;
    if n > 1 {
      PromoteKeepsAhead(ls, n - 1, now, timeout, a, b);
      var m := PromoteUpTo(ls, n - 1, now, timeout);
      var p: nat, i: nat :| AheadAt(m, a, b, p, i);
      if p == n - 1 {
        PromotesInOrder(m, p, i, now, timeout, a, b);
      } else {
        PromotesBehind(m, n - 1, p, i, now, timeout, a, b);
      }
    }
  }

  lemma PushKeepsAhead(ls: Levels, t: Task, a: nat, b: nat)
    requires Ahead(ls, a, b) && t.id != b
    ensures Ahead(PushTo(ls, t), a, b)
  {
    var r := PushTo(ls, t);
    var p: nat, i: nat :| AheadAt(ls, a, b, p, i);
    forall q, j | 0 <= q < LEVELS && 0 <= j < |r[q]| && r[q][j].id == b ensures Behind(r, p, i, q, j) {
      assert r[q][j] == ls[q][j];
      assert Behind(ls, p, i, q, j);
    }
    assert AheadAt(r, a, b, p, i);
  }

  lemma PopKeepsAhead(ls: Levels, a: nat, b: nat)
    requires Ahead(ls, a, b)
    ensures var r := PopFrom(ls);
            r.0.Some? && r.0.value.id != b && (r.0.value.id == a || Ahead(r.1, a, b))
  {
    var r := PopFrom(ls);
    var p: nat, i: nat :| AheadAt(ls, a, b, p, i);
    var f := Best(ls, 0);
    assert f <= p;
    if r.0.value.id != a {
      var i' := if f == p then i - 1 else i;
      assert r.1[p][i'] == ls[p][i];
      forall q, j | 0 <= q < LEVELS && 0 <= j < |r.1[q]| && r.1[q][j].id == b ensures Behind(r.1, p, i', q, j) {
        var j0 := if q == f then j + 1 else j;
        assert r.1[q][j] == ls[q][j0];
        assert Behind(ls, p, i, q, j0);
      }
      assert AheadAt(r.1, a, b, p, i');
    }
  }

  ghost predicate Pushes(ops: seq<Op>, id: nat) {
    exists n :: 0 <= n < |ops| && ops[n].Push? && ops[n].task.id == id
  }

  /**
   First come first served: while `a` waits in front of every `b` - earlier in the same level and submitted
   no later, or at level 0 - whatever is pushed, popped and promoted, no `b` is served before `a`.
   */
  lemma {:induction false} FirstCome(ls: Levels, ops: seq<Op>, a: nat, b: nat, n: nat)
    requires Ahead(ls, a, b) && !Pushes(ops, b)
    requires n < |Served(ls, ops)| && Served(ls, ops)[n].id == b
    ensures exists m :: 0 <= m < n && Served(ls, ops)[m].id == a
    decreases |ops|
  {
    hide PushTo, PopFrom, Promote, Ahead;
    var op, rest := ops[0], ops[1..];
    var r := Apply(ls, op);
    assert !Pushes(rest, b) by {
      assert forall k :: 0 <= k < |rest| ==> rest[k] == ops[k + 1];
    }
    if op.Push? {
      PushKeepsAhead(ls, op.task, a, b);
      assert [] + Served(r.1, rest) == Served(r.1, rest);
      FirstCome(r.1, rest, a, b, n);
    } else {
      StartAhead(ls, op, a, b);
      PopKeepsAhead(if op.check then Promote(ls, op.now, op.timeout) else ls, a, b);
      if r.0.value.id == a {
        assert Served(ls, ops)[0].id == a;
      } else {
        FirstCome(r.1, rest, a, b, n - 1);
        var m :| 0 <= m < n - 1 && Served(r.1, rest)[m].id == a;
        assert Served(ls, ops)[m + 1].id == a;
      }
    }
  }

  lemma StartAhead(ls: Levels, op: Op, a: nat, b: nat)
    requires op.Pop? && Ahead(ls, a, b)
    ensures Ahead(if op.check then Promote(ls, op.now, op.timeout) else ls, a, b)
  {
    hide PromoteUpTo, Ahead;
    PromoteKeepsAhead(ls, LEVELS, op.now, op.timeout, a, b);
  }
}
