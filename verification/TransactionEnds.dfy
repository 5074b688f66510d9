/** What the end of a transaction leaves behind, and that it leaves nothing else (transaction.go). */
module TransactionEnds {
  import opened Bytes
  import opened Versions
  import opened WriteBuffer
  import opened Transactions
  import opened TransactionProof

  ghost function After(actions: seq<Action>, a: Action): State {
    Run(actions + [a])
  }

  lemma AfterDoes(actions: seq<Action>, a: Action)
    ensures After(actions, a) == Do(Run(actions), a)
  {
    hide Do;
    assert (actions + [a])[..|actions|] == actions;
  }

  // ---------------------------------------------------------------- locks

  /** Transaction `t` is gone and exactly its locks are; every other transaction is as before. */
  ghost predicate Released(s: State, s': State, t: TxId) {
    && t !in s'.txs
    && (forall u :: u != t ==> (u in s'.txs <==> u in s.txs))
    && (forall u :: u != t && u in s.txs ==> s'.txs[u] == s.txs[u])
    && (forall k :: k in s'.locks <==> k in s.locks && s.locks[k] != t)
    && (forall k :: k in s'.locks ==> s'.locks[k] == s.locks[k])
  }

  /** The same data are stored, in the same versions, at the same time. */
  ghost predicate SameData(s: State, s': State) {
    && s'.clock == s.clock && s'.store == s.store && s'.mark == s.mark
    && s'.histories == s.histories && s'.lost == s.lost
  }

  /** Every end of a transaction - commit, failed commit, rollback - releases its locks and no others. */
  lemma EndReleases(actions: seq<Action>, a: Action)
    requires a.Commit? || a.Rollback? || a.FailCommit?
    requires a.tx in Run(actions).txs
    requires a.FailCommit? ==> multiset(a.fault.order) == multiset(Run(actions).txs[a.tx].buffer.ordered)
    ensures Released(Run(actions), After(actions, a), a.tx)
  {
    hide Run, UndoAll, Write, Recorded, UndoBuffer;
    AfterDoes(actions, a);
  }

  /** Over every run: a rollback leaves the stored data, their versions and the clock as they are. */
  lemma RollbackDrops(actions: seq<Action>, t: TxId)
    requires t in Run(actions).txs
    ensures SameData(Run(actions), After(actions, Rollback(t)))
    ensures Released(Run(actions), After(actions, Rollback(t)), t)
  {
    hide Run;
    AfterDoes(actions, Rollback(t));
  }

  /** No lock is left behind: over every run each locked key is locked by an active transaction. */
  lemma {:induction false} LocksHeld(actions: seq<Action>)
    ensures forall k :: k in Run(actions).locks ==> Run(actions).locks[k] in Run(actions).txs
  {
    hide Do;
    if actions != [] {
      var n := |actions| - 1;
      LocksHeld(actions[..n]);
      LocksStep(Run(actions[..n]), actions[n]);
    }
  }

  lemma LocksStep(s: State, a: Action)
    requires forall k :: k in s.locks ==> s.locks[k] in s.txs
    ensures forall k :: k in Do(s, a).locks ==> Do(s, a).locks[k] in Do(s, a).txs
  {
    hide UndoAll, Write, Recorded, BufferPut, BufferDelete, Remaining, UndoBuffer, IsWatermark;
  }

  /** Once a transaction has ended, every other one can lock what it had locked. */
  lemma EndUnblocks(actions: seq<Action>, a: Action, u: TxId, k: Key)
    requires a.Commit? || a.Rollback? || a.FailCommit?
    requires a.tx in Run(actions).txs
    requires a.FailCommit? ==> multiset(a.fault.order) == multiset(Run(actions).txs[a.tx].buffer.ordered)
    ensures CanLock(After(actions, a), u, k) <==> CanLock(Run(actions), u, k) || CanLock(Run(actions), a.tx, k)
  {
    hide Run;
    EndReleases(actions, a);
    LocksHeld(actions);
  }

  // ---------------------------------------------------------------- begin and commit

  /** A new transaction reads the latest committed value of every key, and disturbs nobody. */
  lemma BeginSees(actions: seq<Action>, t: TxId, k: Key)
    requires t !in Run(actions).txs
    ensures var s, s' := Run(actions), After(actions, Begin(t));
            && t in s'.txs && Get(s', t, k) == Visible(RecordOf(s.store, k))
            && s'.txs[t].snapshot == s'.clock > s.clock
            && s' == s.(clock := s'.clock, txs := s.txs[t := s'.txs[t]])
  {
    hide Run;
    AfterDoes(actions, Begin(t));
    RunInv(actions);
    assert KeyOK(Run(actions), k);
  }

  /**
   A commit adds one version, at the new time, to every key of the buffer: what the operations of the
   transaction, one at a time, make of the latest committed value. It touches no other key.
   */
  lemma CommitAdds(actions: seq<Action>, t: TxId, k: Key)
    requires t in Run(actions).txs
    ensures var s, s' := Run(actions), After(actions, Commit(t));
            var tx := s.txs[t];
            && s'.clock == s.clock + 1
            && if k in tx.buffer.entries then
                 HistoryOf(s', k)
                 == HistoryOf(s, k) + [Version(s'.clock, Fold(tx.ops, k, Visible(RecordOf(s.store, k))))]
               else HistoryOf(s', k) == HistoryOf(s, k) && RecordOf(s'.store, k) == RecordOf(s.store, k)
  {
    hide Run, Fold, Inv;
    AfterDoes(actions, Commit(t));
    RunInv(actions);
    Committing(Run(actions), t, k);
    CommitHistories(Run(actions), t, k);
    assert HistoryOf(Run(actions), k) + [] == HistoryOf(Run(actions), k);
  }

  lemma CommitHistories(s: State, t: TxId, k: Key)
    requires t in s.txs
    ensures var s', entries := DoCommit(s, t), s.txs[t].buffer.entries;
            && HistoryOf(s', k) == HistoryOf(s, k) + Committed(entries, k, s.clock + 1)
            && (k !in entries ==> Committed(entries, k, s.clock + 1) == [])
            && (k !in entries ==> RecordOf(s'.store, k) == RecordOf(s.store, k))
  {
    hide Committed;
    NoneCommitted(s.txs[t].buffer.entries, k, s.clock + 1);
    assert HistoryOf(s, k) + [] == HistoryOf(s, k);
  }

  /** What a transaction wrote last to a key is what a transaction that begins after its commit reads. */
  lemma CommitIsSeen(actions: seq<Action>, t: TxId, op: TxOp, u: TxId)
    requires var s := Run(actions); t in s.txs && u !in s.txs && op.key != [] && CanLock(s, t, op.key)
    ensures var a := if op.Put? then PutKey(t, op.key, op.value) else DeleteKey(t, op.key);
            var s' := After(actions + [a] + [Commit(t)], Begin(u));
            u in s'.txs && Get(s', u, op.key) == if op.Put? then Some(op.value) else None
  {
    hide Run, BufferPut, BufferDelete;
    var a := if op.Put? then PutKey(t, op.key, op.value) else DeleteKey(t, op.key);
    var s := Run(actions);
    AfterDoes(actions, a);
    var m := Run(actions + [a]);
    assert t in m.txs && u !in m.txs && m.txs[t].ops == s.txs[t].ops + [op];
    FoldAppend(s.txs[t].ops, op, op.key, Visible(RecordOf(m.store, op.key)));
    CommitFolds(actions + [a], t, op.key);
    EndReleases(actions + [a], Commit(t));
    BeginSees(actions + [a] + [Commit(t)], u, op.key);
  }

  /**
   A failed commit is a rollback but for the keys whose undo fails: their records stay, as if the
   transaction had committed them alone; every other key reads as before.
   */
  lemma FailLeaves(actions: seq<Action>, t: TxId, x: Fault, k: Key)
    requires t in Run(actions).txs
    requires multiset(x.order) == multiset(Run(actions).txs[t].buffer.ordered)
    ensures var s, s' := Run(actions), After(actions, FailCommit(t, x));
            var entries := s.txs[t].buffer.entries;
            && Released(s, s', t) && s'.clock == s.clock + 1 && s'.mark == s.mark
            && if k in entries && k in x.applied && k in x.stuck then
                 && RecordOf(s'.store, k) == Some(Encode(entries[k], s'.clock))
                 && HistoryOf(s', k)
                    == HistoryOf(s, k) + [Version(s'.clock, Fold(s.txs[t].ops, k, Visible(RecordOf(s.store, k))))]
               else
                 && Visible(RecordOf(s'.store, k)) == Visible(RecordOf(s.store, k))
                 && HistoryOf(s', k) == HistoryOf(s, k)
  {
    hide Run, Fold, DoFail, Inv, Released, Do;
    AfterDoes(actions, FailCommit(t, x));
    EndReleases(actions, FailCommit(t, x));
    RunInv(actions);
    FailIs(Run(actions), t, x);
    FailRestores(Run(actions), t, x);
    FailVersions(Run(actions), t, x, k);
  }

  lemma FailIs(s: State, t: TxId, x: Fault)
    requires t in s.txs && multiset(x.order) == multiset(s.txs[t].buffer.ordered)
    ensures Do(s, FailCommit(t, x)) == DoFail(s, t, x)
    ensures DoFail(s, t, x).clock == s.clock + 1 && DoFail(s, t, x).mark == s.mark
  {
    hide UndoAll, Write, UndoBuffer, Recorded;
  }

  lemma FailVersions(s: State, t: TxId, x: Fault, k: Key)
    requires Inv(s) && t in s.txs
    ensures var tx, s' := s.txs[t], DoFail(s, t, x);
            HistoryOf(s', k) ==
            if k in tx.buffer.entries && k in x.applied && k in x.stuck then
              HistoryOf(s, k) + [Version(s.clock + 1, Fold(tx.ops, k, Visible(RecordOf(s.store, k))))]
            else HistoryOf(s, k)
  {
    hide Fold, Inv;
    Committing(s, t, k);
    FailHistories(s, t, x, k);
    assert HistoryOf(s, k) + [] == HistoryOf(s, k);
  }

  lemma FailHistories(s: State, t: TxId, x: Fault, k: Key)
    requires t in s.txs
    ensures HistoryOf(DoFail(s, t, x), k)
            == HistoryOf(s, k) + Committed(Remaining(s.txs[t].buffer.entries, x), k, s.clock + 1)
  {
    hide UndoAll, Write, UndoBuffer, Committed;
    NoneCommitted(Remaining(s.txs[t].buffer.entries, x), k, s.clock + 1);
    assert HistoryOf(s, k) + [] == HistoryOf(s, k);
  }

  /** The version a buffered write adds is what the operations make of the latest committed value. */
  lemma Committing(s: State, t: TxId, k: Key)
    requires Inv(s) && t in s.txs
    ensures var tx := s.txs[t];
            k in tx.buffer.entries ==>
              Committed(tx.buffer.entries, k, s.clock + 1)
              == [Version(s.clock + 1, Fold(tx.ops, k, Visible(RecordOf(s.store, k))))]
  {
    hide Fold, KeyOK;
    assert TxOK(s, t, s.txs[t]) && FoldsTo(s, s.txs[t], k);
  }

  // ---------------------------------------------------------------- garbage collection

  /** A delete so old that every active snapshot, and every snapshot to come, reads the key as absent. */
  ghost predicate Outdated(s: State, k: Key) {
    && k in s.store && s.store[k].deleted
    && if s.txs == map[] then s.store[k].ts < s.clock
       else forall t :: t in s.txs ==> s.store[k].ts < s.txs[t].snapshot
  }

  /** Reading the watermark and compacting removes exactly the outdated deletes of the pages it visits. */
  lemma TombstonesGo(actions: seq<Action>, w: TS, keys: set<Key>, k: Key)
    requires IsWatermark(Run(actions), w)
    ensures var s, s' := Run(actions), After(actions + [ReadMark(w)], Compact(keys));
            && RecordOf(s'.store, k) == (if k in keys && Outdated(s, k) then None else RecordOf(s.store, k))
            && s' == s.(store := s'.store, mark := w)
  {
    hide Run;
    AfterDoes(actions, ReadMark(w));
    AfterDoes(actions + [ReadMark(w)], Compact(keys));
    var s := Run(actions);
    if s.txs != map[] {
      var t :| t in s.txs && s.txs[t].snapshot == w;
    }
  }

  /** There is always exactly one watermark to read. */
  lemma WatermarkIs(s: State) returns (w: TS)
    ensures forall v :: IsWatermark(s, v) <==> v == w
  {
    if s.txs == map[] {
      w := s.clock;
    } else {
      w := LeastSnapshot(s, s.txs.Keys);
    }
  }

  lemma {:induction false} LeastSnapshot(s: State, ts: set<TxId>) returns (w: TS)
    requires ts != {} && ts <= s.txs.Keys
    ensures (exists t :: t in ts && s.txs[t].snapshot == w) && forall t :: t in ts ==> w <= s.txs[t].snapshot
    decreases |ts|
  {
    var t :| t in ts;
    w := s.txs[t].snapshot;
    if ts != {t} {
      var v := LeastSnapshot(s, ts - {t});
      if v < w {
        w := v;
      }
      assert forall u :: u in ts ==> u == t || u in ts - {t};
    }
  }
}
