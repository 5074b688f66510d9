/** Over every run of transactions: version chains, snapshot reads, folding, undo and compaction. */
module TransactionProof {
  import opened Bytes
  import opened Versions
  import opened WriteBuffer
  import opened Transactions

  // ---------------------------------------------------------------- invariant

  /** The record of a key stands for its history. */
  ghost predicate KeyOK(s: State, k: Key) {
    && StandsFor(RecordOf(s.store, k), HistoryOf(s, k), k in s.lost, s.mark)
    && (k in s.store ==> s.store[k].ts <= s.clock)
    && forall i :: 0 <= i < |HistoryOf(s, k)| ==> HistoryOf(s, k)[i].ts <= s.clock
  }

  /** Old versions captured in a buffer are what the storage holds, as long as the lock is held. */
  ghost predicate TxOK(s: State, t: TxId, tx: Tx) {
    && s.mark <= tx.snapshot <= s.clock && BufferOK(tx.buffer)
    && (forall k :: k in tx.buffer.entries ==>
          k in s.locks && s.locks[k] == t && tx.buffer.entries[k].before == VisibleVersion(s.store, k))
    && (forall k {:trigger Fold(tx.ops, k, Visible(RecordOf(s.store, k)))} :: FoldsTo(s, tx, k))
    && (forall i :: 0 <= i < |tx.ops| ==> tx.ops[i].key in s.locks && s.locks[tx.ops[i].key] == t)
  }

  /** The buffer shows what the operations, one at a time, make of the latest committed value. */
  ghost predicate FoldsTo(s: State, tx: Tx, k: Key) {
    Effective(tx.buffer, k, Visible(RecordOf(s.store, k))) == Fold(tx.ops, k, Visible(RecordOf(s.store, k)))
  }

  ghost predicate Inv(s: State) {
    && s.mark <= s.clock
    && (forall k {:trigger KeyOK(s, k)} :: KeyOK(s, k))
    && (forall t {:trigger s.txs[t]} :: t in s.txs ==> TxOK(s, t, s.txs[t]))
  }

  /** Operations that never touched a key fold to the identity on it. */
  lemma {:induction false} FoldOthers(ops: seq<TxOp>, k: Key, v: Option<Value>)
    requires forall i :: 0 <= i < |ops| ==> ops[i].key != k
    ensures Fold(ops, k, v) == v
  {
    if ops != [] {
      FoldOthers(ops[..|ops| - 1], k, v);
    }
  }

  lemma FoldAppend(ops: seq<TxOp>, op: TxOp, k: Key, v: Option<Value>)
    ensures Fold(ops + [op], k, v) == if op.key != k then Fold(ops, k, v) else if op.Put? then Some(op.value) else None
  {
    assert (ops + [op])[..|ops|] == ops;
  }

  // ---------------------------------------------------------------- what a step leaves alone

  /** Another transaction is not disturbed when no record it has locked changes visibly. */
  lemma OtherTx(s: State, s': State, t: TxId, tx: Tx)
    requires TxOK(s, t, tx) && s.clock <= s'.clock && s'.mark <= tx.snapshot
    requires forall k :: k in s.locks && s.locks[k] == t ==>
               k in s'.locks && s'.locks[k] == t && VisibleVersion(s'.store, k) == VisibleVersion(s.store, k)
    ensures TxOK(s', t, tx)
  {
    forall k ensures FoldsTo(s', tx, k) {
      assert FoldsTo(s, tx, k);
      if k in s.locks && s.locks[k] == t {
        assert Visible(RecordOf(s'.store, k)) == Visible(RecordOf(s.store, k));
      } else {
        FoldOthers(tx.ops, k, Visible(RecordOf(s'.store, k)));
      }
    }
  }

  // ---------------------------------------------------------------- begin, put, delete, rollback, mark

  lemma BeginStep(s: State, t: TxId)
    requires Inv(s)
    ensures Inv(Do(s, Begin(t)))
  {
    hide Fold, StandsFor;
    var s' := Do(s, Begin(t));
    forall k ensures KeyOK(s', k) {
      assert KeyOK(s, k);
    }
    forall u | u in s'.txs ensures TxOK(s', u, s'.txs[u]) {
      if u in s.txs {
        OtherTx(s, s', u, s.txs[u]);
      } else {
        forall k ensures FoldsTo(s', s'.txs[u], k) {
          FoldOthers([], k, Visible(RecordOf(s'.store, k)));
        }
      }
    }
  }

  lemma WriteStep(s: State, a: Action)
    requires Inv(s) && (a.PutKey? || a.DeleteKey?)
    ensures Inv(Do(s, a))
  {
    hide Fold, StandsFor;
    var s', t, key := Do(s, a), a.tx, a.key;
    if s' != s {
      forall k ensures KeyOK(s', k) {
        assert KeyOK(s, k);
      }
      forall u | u in s'.txs ensures TxOK(s', u, s'.txs[u]) {
        if u != t {
          assert s'.txs[u] == s.txs[u];
          OtherTx(s, s', u, s.txs[u]);
        } else {
          OwnWrite(s, s', a);
        }
      }
    }
  }

  /** The written key joins the locks; the buffer and the operations agree on every key. */
  lemma OwnWrite(s: State, s': State, a: Action)
    requires Inv(s) && (a.PutKey? || a.DeleteKey?) && a.tx in s.txs && a.key != [] && CanLock(s, a.tx, a.key)
             && s' == Do(s, a)
    ensures TxOK(s', a.tx, s'.txs[a.tx])
  {
    hide Fold, StandsFor, Effective, FoldsTo, BufferOK;
    var t := a.tx;
    assert TxOK(s, t, s.txs[t]);
    OwnFolds(s, s', a, a.key);
    forall k ensures FoldsTo(s', s'.txs[t], k) {
      OwnFolds(s, s', a, k);
    }
    var es, es' := s.txs[t].buffer.entries, s'.txs[t].buffer.entries;
    forall k | k in es' ensures k in s'.locks && s'.locks[k] == t && es'[k].before == VisibleVersion(s'.store, k) {
      assert k != a.key ==> k in es && es'[k] == es[k];
    }
    var ops' := s'.txs[t].ops;
    forall i | 0 <= i < |ops'| ensures ops'[i].key in s'.locks && s'.locks[ops'[i].key] == t {
      assert i < |s.txs[t].ops| ==> ops'[i] == s.txs[t].ops[i];
    }
  }

  lemma OwnFolds(s: State, s': State, a: Action, k: Key)
    requires (a.PutKey? || a.DeleteKey?) && a.tx in s.txs && a.key != [] && CanLock(s, a.tx, a.key) && s' == Do(s, a)
    requires TxOK(s, a.tx, s.txs[a.tx])
    ensures FoldsTo(s', s'.txs[a.tx], k) && BufferOK(s'.txs[a.tx].buffer)
  {
    hide Fold, Effective, BufferOK;
    var tx := s.txs[a.tx];
    var v := Visible(RecordOf(s.store, k));
    assert FoldsTo(s, tx, k);
    if a.PutKey? {
      FoldAppend(tx.ops, Put(a.key, a.value), k, v);
      PutFolds(tx.buffer, a.key, a.value, VisibleVersion(s.store, a.key), k, v);
    } else {
      FoldAppend(tx.ops, Delete(a.key), k, v);
      DeleteFolds(tx.buffer, a.key, VisibleVersion(s.store, a.key), k, v);
    }
  }

  lemma FinishStep(s: State, t: TxId)
    requires Inv(s) && t in s.txs
    ensures Inv(Finish(s, t))
  {
    hide Fold, StandsFor;
    var s' := Finish(s, t);
    forall k ensures KeyOK(s', k) {
      assert KeyOK(s, k);
    }
    forall u | u in s'.txs ensures TxOK(s', u, s'.txs[u]) {
      OtherTx(s, s', u, s.txs[u]);
    }
  }

  /** Raising the mark to the watermark keeps it below every active snapshot. */
  lemma MarkStep(s: State, w: TS)
    requires Inv(s) && IsWatermark(s, w)
    ensures Inv(Do(s, ReadMark(w))) && s.mark <= w
  {
    hide Fold;
    var s' := Do(s, ReadMark(w));
    assert s.mark <= w by {
      if s.txs != map[] {
        var t :| t in s.txs && s.txs[t].snapshot == w;
        assert TxOK(s, t, s.txs[t]);
      }
    }
    forall k ensures KeyOK(s', k) {
      assert KeyOK(s, k);
    }
    forall u | u in s'.txs ensures TxOK(s', u, s'.txs[u]) {
      OtherTx(s, s', u, s.txs[u]);
    }
    if s.txs != map[] {
      var t :| t in s.txs && s.txs[t].snapshot == w;
      assert TxOK(s, t, s.txs[t]);
    }
  }

  lemma CompactStep(s: State, keys: set<Key>)
    requires Inv(s)
    ensures Inv(Do(s, Compact(keys)))
    ensures forall k :: Visible(RecordOf(Do(s, Compact(keys)).store, k)) == Visible(RecordOf(s.store, k))
  {
    hide Fold;
    var s' := Do(s, Compact(keys));
    forall k ensures KeyOK(s', k) {
      assert KeyOK(s, k);
    }
    forall u | u in s'.txs ensures TxOK(s', u, s'.txs[u]) {
      OtherTx(s, s', u, s.txs[u]);
    }
  }

  // ---------------------------------------------------------------- commit

  lemma CommitFacts(s: State, s': State, t: TxId, k: Key)
    requires t in s.txs && s' == DoCommit(s, t)
    ensures var entries, c := s.txs[t].buffer.entries, s.clock + 1;
            && RecordOf(s'.store, k) == (if k in entries then Some(Encode(entries[k], c)) else RecordOf(s.store, k))
            && HistoryOf(s', k) == HistoryOf(s, k) + Committed(entries, k, c)
            && (k in s'.lost <==> k in s.lost && k !in entries) && s'.mark == s.mark && s'.clock == c
  {
    hide Encode, Committed;
    assert [] + Committed(s.txs[t].buffer.entries, k, s.clock + 1)
           == Committed(s.txs[t].buffer.entries, k, s.clock + 1);
    assert k !in s.txs[t].buffer.entries ==>
           HistoryOf(s, k) + [] == HistoryOf(s, k) && Committed(s.txs[t].buffer.entries, k, s.clock + 1) == [] by {
      NoneCommitted(s.txs[t].buffer.entries, k, s.clock + 1);
    }
  }

  lemma NoneCommitted(entries: map<Key, Entry>, k: Key, c: TS)
    ensures k !in entries ==> Committed(entries, k, c) == []
  {
  }

  lemma CommitKey(s: State, s': State, t: TxId, k: Key)
    requires KeyOK(s, k) && t in s.txs && TxOK(s, t, s.txs[t]) && s' == DoCommit(s, t) && s.mark <= s.clock
    ensures KeyOK(s', k)
  {
    hide Fold, StandsFor, DoCommit, HistoryOf;
    CommitFacts(s, s', t, k);
    var entries, c := s.txs[t].buffer.entries, s.clock + 1;
    if k in entries {
      CommitStandsFor(RecordOf(s.store, k), HistoryOf(s, k), k in s.lost, s.mark, Encode(entries[k], c), c);
    } else {
      assert HistoryOf(s', k) == HistoryOf(s, k);
    }
  }

  lemma CommitStep(s: State, t: TxId)
    requires Inv(s) && t in s.txs
    ensures Inv(DoCommit(s, t))
  {
    hide KeyOK, Recorded;
    var s' := DoCommit(s, t);
    assert TxOK(s, t, s.txs[t]);
    forall k ensures KeyOK(s', k) {
      assert KeyOK(s, k);
      CommitKey(s, s', t, k);
    }
    forall u | u in s'.txs ensures TxOK(s', u, s'.txs[u]) {
      OtherTx(s, s', u, s.txs[u]);
    }
  }

  // ---------------------------------------------------------------- failed commit

  /**
   What undoing leaves of key `k`: a key this commit wrote is restored, without its inlined version,
   unless its undo fails.
   */
  ghost function Restored(store: Store, entries: map<Key, Entry>, x: Fault, commitTS: TS, k: Key): Option<Record> {
    if k !in entries || k !in x.applied then RecordOf(store, k)
    else if k in x.stuck then Some(Encode(entries[k], commitTS))
    else if entries[k].before.None? then Some(Record(true, commitTS, [], None))
    else Some(Record(false, entries[k].before.value.ts, entries[k].before.value.value, None))
  }

  /** The entries describe the storage they are to be undone to. */
  ghost predicate Captured(store: Store, b: Buffer, commitTS: TS) {
    && BufferOK(b)
    && (forall k :: k in b.entries ==> b.entries[k].before == VisibleVersion(store, k))
    && (forall k :: k in store ==> store[k].ts < commitTS)
  }

  /** Key `k` is undone, or it is still to come in `keys` and as it was written. */
  ghost predicate Underway(store: Store, b: Buffer, x: Fault, commitTS: TS, keys: seq<Key>, now: Store, k: Key) {
    || RecordOf(now, k) == Restored(store, b.entries, x, commitTS, k)
    || (k in keys && RecordOf(now, k) == RecordOf(Write(store, b.entries, x.applied, commitTS), k))
  }

  /** Keys are undone whatever their number and order in the undo buffer, and no other key is touched. */
  lemma {:induction false} UndoRestores(store: Store, b: Buffer, x: Fault, commitTS: TS, keys: seq<Key>, now: Store)
    requires Captured(store, b, commitTS)
    requires forall k :: Underway(store, b, x, commitTS, keys, now, k)
    ensures forall k :: RecordOf(UndoAll(now, UndoBuffer(keys, b.entries, commitTS), x.stuck), k)
                        == Restored(store, b.entries, x, commitTS, k)
  {
    hide Write, Encode, UndoOne, Restored, Captured, RecordOf;
    if keys == [] {
      forall k ensures RecordOf(now, k) == Restored(store, b.entries, x, commitTS, k) {
        assert Underway(store, b, x, commitTS, keys, now, k);
      }
    } else {
      var n := |keys| - 1;
      var undo, front := UndoBuffer(keys, b.entries, commitTS), UndoBuffer(keys[..n], b.entries, commitTS);
      var now' := now;
      if keys[n] in b.entries {
        var u := UndoOf(keys[n], b.entries[keys[n]], commitTS);
        assert undo == front + [u] && undo[..|undo| - 1] == front;
        now' := if u.key in x.stuck then now else UndoOne(now, u);
      } else {
        assert undo == front;
      }
      forall k ensures Underway(store, b, x, commitTS, keys[..n], now', k) {
        assert Underway(store, b, x, commitTS, keys, now, k) && Underway(store, b, x, commitTS, keys, now, keys[n]);
        UndoneKey(store, b, x, commitTS, keys, now, now', k);
      }
      UndoRestores(store, b, x, commitTS, keys[..n], now');
    }
  }

  /** Undoing the last key restores it and leaves the others alone. */
  lemma UndoneKey(store: Store, b: Buffer, x: Fault, commitTS: TS, keys: seq<Key>, now: Store, now': Store, k: Key)
    requires Captured(store, b, commitTS) && keys != []
    requires Underway(store, b, x, commitTS, keys, now, k)
             && Underway(store, b, x, commitTS, keys, now, keys[|keys| - 1])
    requires var last := keys[|keys| - 1];
             now' == if last in b.entries && last !in x.stuck then UndoOne(now, UndoOf(last, b.entries[last], commitTS))
               else now
    ensures Underway(store, b, x, commitTS, keys[..|keys| - 1], now', k)
  {
    assert k in keys && k != keys[|keys| - 1] ==> k in keys[..|keys| - 1];
  }

  /**
   A failed commit is undone: whichever keys were written, the latest visible value of every key is
   what it was - unless its own undo failed, and then it is what the commit wrote - and no key that was
   not written is touched.
   */
  lemma FailRestores(s: State, t: TxId, x: Fault)
    requires Inv(s) && t in s.txs && multiset(x.order) == multiset(s.txs[t].buffer.ordered)
    ensures var s', entries := DoFail(s, t, x), s.txs[t].buffer.entries;
            && (forall k :: k !in Remaining(entries, x) ==>
                Visible(RecordOf(s'.store, k)) == Visible(RecordOf(s.store, k)))
            && (forall k :: k in Remaining(entries, x) ==>
                RecordOf(s'.store, k) == Some(Encode(entries[k], s.clock + 1)))
            && (forall k :: k !in x.applied || k !in entries ==> RecordOf(s'.store, k) == RecordOf(s.store, k))
            && (forall k :: RecordOf(s'.store, k) == Restored(s.store, entries, x, s.clock + 1, k))
  {
    hide Fold, StandsFor, UndoAll, UndoBuffer;
    var b, c := s.txs[t].buffer, s.clock + 1;
    assert TxOK(s, t, s.txs[t]);
    forall k | k in s.store ensures s.store[k].ts < c {
      assert KeyOK(s, k);
    }
    forall k ensures Underway(s.store, b, x, c, x.order, Write(s.store, b.entries, x.applied, c), k) {
      assert k in b.entries ==> k in multiset(b.ordered);
    }
    UndoRestores(s.store, b, x, c, x.order, Write(s.store, b.entries, x.applied, c));
  }

  lemma FailKey(s: State, s': State, t: TxId, x: Fault, k: Key)
    requires KeyOK(s, k) && t in s.txs && TxOK(s, t, s.txs[t]) && s.mark <= s.clock
    requires s'.mark == s.mark && s'.clock == s.clock + 1
    requires RecordOf(s'.store, k) == Restored(s.store, s.txs[t].buffer.entries, x, s.clock + 1, k)
    requires HistoryOf(s', k) == HistoryOf(s, k) + Committed(Remaining(s.txs[t].buffer.entries, x), k, s.clock + 1)
    requires var entries := s.txs[t].buffer.entries;
             k in s'.lost <==> (k in s.lost && k !in Remaining(entries, x))
                               || (k in entries && k in x.applied && k !in x.stuck)
    ensures KeyOK(s', k)
  {
    hide Fold, HistoryOf;
    var entries, c := s.txs[t].buffer.entries, s.clock + 1;
    if k in Remaining(entries, x) {
      CommitStandsFor(RecordOf(s.store, k), HistoryOf(s, k), k in s.lost, s.mark, Encode(entries[k], c), c);
    } else {
      assert HistoryOf(s', k) == HistoryOf(s, k);
    }
  }

  lemma FailStep(s: State, t: TxId, x: Fault)
    requires Inv(s) && t in s.txs && multiset(x.order) == multiset(s.txs[t].buffer.ordered)
    ensures Inv(DoFail(s, t, x))
  {
    hide Fold, UndoAll, UndoBuffer, KeyOK, Restored, Write, StandsFor;
    var s' := DoFail(s, t, x);
    FailRestores(s, t, x);
    assert TxOK(s, t, s.txs[t]);
    forall k ensures KeyOK(s', k) {
      assert KeyOK(s, k);
      FailHistory(s, s', t, x, k);
      FailKey(s, s', t, x, k);
    }
    forall u | u in s'.txs ensures TxOK(s', u, s'.txs[u]) {
      forall k | k in s.locks && s.locks[k] == u ensures VisibleVersion(s'.store, k) == VisibleVersion(s.store, k) {
        assert RecordOf(s'.store, k) == RecordOf(s.store, k);
      }
      OtherTx(s, s', u, s.txs[u]);
    }
  }

  lemma FailHistory(s: State, s': State, t: TxId, x: Fault, k: Key)
    requires t in s.txs && s' == DoFail(s, t, x)
    ensures HistoryOf(s', k) == HistoryOf(s, k) + Committed(Remaining(s.txs[t].buffer.entries, x), k, s.clock + 1)
  {
    hide UndoAll, UndoBuffer, Write;
    var rest, c := Remaining(s.txs[t].buffer.entries, x), s.clock + 1;
    assert k !in s.histories && k !in rest ==> [] + Committed(rest, k, c) == [];
  }

  // ---------------------------------------------------------------- runs

  lemma StepInv(s: State, a: Action)
    requires Inv(s)
    ensures Inv(Do(s, a))
  {
    hide Inv, DoCommit, DoFail, Finish;
    match a
    case Begin(t) => BeginStep(s, t);
    case PutKey(_, _, _) => WriteStep(s, a);
    case DeleteKey(_, _) => WriteStep(s, a);
    case Commit(t) => if t in s.txs { CommitStep(s, t); }
    case FailCommit(t, x) =>
      if t in s.txs && multiset(x.order) == multiset(s.txs[t].buffer.ordered) {
        FailStep(s, t, x);
      }
    case Rollback(t) => if t in s.txs { FinishStep(s, t); }
    case ReadMark(w) => if IsWatermark(s, w) { MarkStep(s, w); }
    case Compact(keys) => CompactStep(s, keys);
  }

  lemma {:induction false} RunInv(actions: seq<Action>)
    ensures Inv(Run(actions))
  {
    if actions != [] {
      RunInv(actions[..|actions| - 1]);
      StepInv(Run(actions[..|actions| - 1]), actions[|actions| - 1]);
    } else {
      forall k ensures KeyOK(START, k) {}
    }
  }

  /**
   Over every run, what an active transaction reads for a key it has written is what its own
   operations made of it, and for any other key it is what the full history held at its snapshot -
   exactly when at most one commit to the key is newer than the snapshot (none, if an undo has
   rewritten the record since its last commit), or there was nothing to see.
   */
  lemma SnapshotReads(actions: seq<Action>, t: TxId, k: Key)
    requires t in Run(actions).txs
    ensures var s := Run(actions);
            var tx, h := s.txs[t], HistoryOf(s, k);
            if k in tx.buffer.entries then Get(s, t, k) == Fold(tx.ops, k, Visible(RecordOf(s.store, k)))
            else Get(s, t, k) == At(h, tx.snapshot)
                 <==> At(h, tx.snapshot).None? || Newer(h, tx.snapshot) == 0
                      || (Newer(h, tx.snapshot) == 1 && k !in s.lost)
  {
    hide Fold, At, Newer, ReadRecord, Run;
    RunInv(actions);
    var s := Run(actions);
    var tx := s.txs[t];
    assert KeyOK(s, k) && TxOK(s, t, tx);
    ReadExact(RecordOf(s.store, k), HistoryOf(s, k), k in s.lost, s.mark, tx.snapshot);
    assert FoldsTo(s, tx, k);
  }

  /** Right after its own put a transaction reads the value, whatever else it or others do to the storage. */
  lemma ReadYourWrites(actions: seq<Action>, t: TxId, k: Key, v: Value)
    requires var s := Run(actions); t in s.txs && k != [] && CanLock(s, t, k)
    ensures var s' := Run(actions + [PutKey(t, k, v)]); t in s'.txs && Get(s', t, k) == Some(v)
  {
    assert (actions + [PutKey(t, k, v)])[..|actions|] == actions;
  }

  /**
   Over every run, a stored record is the last commit of its key and inlines the commit just before
   it, unless that was a delete.
   */
  lemma VersionChain(actions: seq<Action>, k: Key)
    ensures var s := Run(actions);
            k in s.store && k !in s.lost ==>
              var r, h := s.store[k], HistoryOf(s, k);
              && h != [] && h[|h| - 1] == Version(r.ts, if r.deleted then None else Some(r.value))
              && r.prev == Preceding(h) && Increasing(h)
  {
    hide Run;
    RunInv(actions);
    assert KeyOK(Run(actions), k);
  }

  /**
   Committing the folded buffer leaves the latest value of every key as if the operations of the
   transaction had been applied one at a time.
   */
  lemma CommitFolds(actions: seq<Action>, t: TxId, k: Key)
    requires t in Run(actions).txs
    ensures var s, s' := Run(actions), Run(actions + [Commit(t)]);
            Visible(RecordOf(s'.store, k)) == Fold(s.txs[t].ops, k, Visible(RecordOf(s.store, k)))
  {
    hide Fold;
    assert (actions + [Commit(t)])[..|actions|] == actions;
    RunInv(actions);
    var s := Run(actions);
    assert TxOK(s, t, s.txs[t]) && FoldsTo(s, s.txs[t], k);
  }

  /** Two transactions never have the same key in their buffers. */
  lemma BuffersDisjoint(actions: seq<Action>, t: TxId, u: TxId, k: Key)
    requires t in Run(actions).txs && u in Run(actions).txs
    requires k in Run(actions).txs[t].buffer.entries && k in Run(actions).txs[u].buffer.entries
    ensures t == u
  {
    hide Run;
    RunInv(actions);
    var s := Run(actions);
    assert TxOK(s, t, s.txs[t]) && TxOK(s, u, s.txs[u]);
  }

  // ---------------------------------------------------------------- the watermark

  lemma SnapshotsStep(s: State, a: Action)
    ensures var s' := Do(s, a);
            && s.clock <= s'.clock
            && forall t :: t in s'.txs ==>
               if t in s.txs then s'.txs[t].snapshot == s.txs[t].snapshot else s'.txs[t].snapshot == s.clock + 1
  {
    hide Write, UndoAll, UndoBuffer, Recorded, Remaining, BufferPut, BufferDelete, Release;
  }

  /** The effective watermark never decreases, whatever step is taken. */
  lemma WatermarkMonotone(actions: seq<Action>, a: Action, w: TS, w': TS)
    requires IsWatermark(Run(actions), w) && IsWatermark(Run(actions + [a]), w')
    ensures w <= w'
  {
    hide Fold, StandsFor, Do;
    assert (actions + [a])[..|actions|] == actions;
    RunInv(actions);
    var s, s' := Run(actions), Run(actions + [a]);
    SnapshotsStep(s, a);
    assert w <= s.clock by {
      if s.txs != map[] {
        var t :| t in s.txs && s.txs[t].snapshot == w;
        assert TxOK(s, t, s.txs[t]);
      }
    }
    if s'.txs != map[] {
      var t :| t in s'.txs && s'.txs[t].snapshot == w';
    }
  }

  // ---------------------------------------------------------------- compaction is invisible

  /** The record is the same, or it is a delete below the mark and has been removed. */
  ghost predicate KeyCompacted(s: Store, z: Store, mark: TS, k: Key) {
    var r, q := RecordOf(s, k), RecordOf(z, k);
    r == q || (r.None? && q.Some? && q.value.deleted && q.value.ts < mark)
  }

  /** `s` is `z` with some deletes below the mark removed from the storage. */
  ghost predicate Compacted(s: State, z: State) {
    s == z.(store := s.store) && forall k {:trigger KeyCompacted(s.store, z.store, s.mark, k)} ::
      KeyCompacted(s.store, z.store, s.mark, k)
  }

  lemma CompactedCompact(s: State, z: State, keys: set<Key>)
    requires Compacted(s, z)
    ensures Compacted(Do(s, Compact(keys)), z)
  {
    forall k ensures KeyCompacted(Do(s, Compact(keys)).store, z.store, s.mark, k) {
      assert KeyCompacted(s.store, z.store, s.mark, k);
    }
  }

  lemma CompactedFail(s: State, z: State, t: TxId, x: Fault)
    requires Inv(s) && Inv(z) && Compacted(s, z) && t in s.txs && multiset(x.order) == multiset(s.txs[t].buffer.ordered)
    ensures Compacted(DoFail(s, t, x), DoFail(z, t, x))
  {
    hide Inv, KeyCompacted, RecordOf, DoFail, Restored;
    var s', z', entries, c := DoFail(s, t, x), DoFail(z, t, x), s.txs[t].buffer.entries, s.clock + 1;
    FailFields(s, z, t, x);
    forall k ensures KeyCompacted(s'.store, z'.store, s.mark, k) {
      assert KeyCompacted(s.store, z.store, s.mark, k);
      FailRecord(s, t, x, k);
      FailRecord(z, t, x, k);
      RestoredCompacted(s, z, s'.store, z'.store, entries, x, c, k);
    }
  }

  lemma FailRecord(s: State, t: TxId, x: Fault, k: Key)
    requires Inv(s) && t in s.txs && multiset(x.order) == multiset(s.txs[t].buffer.ordered)
    ensures RecordOf(DoFail(s, t, x).store, k) == Restored(s.store, s.txs[t].buffer.entries, x, s.clock + 1, k)
  {
    hide Inv, DoFail, Restored, RecordOf, Visible;
    FailRestores(s, t, x);
  }

  lemma FailFields(s: State, z: State, t: TxId, x: Fault)
    requires s == z.(store := s.store) && t in s.txs
    ensures DoFail(s, t, x) == DoFail(z, t, x).(store := DoFail(s, t, x).store) && DoFail(s, t, x).mark == s.mark
  {
    hide UndoAll, UndoBuffer, Write, Remaining, Recorded, Release;
    SameRecorded(s, z, Remaining(s.txs[t].buffer.entries, x), s.clock + 1);
    var a, b := DoFail(s, t, x), DoFail(z, t, x);
    assert a.clock == b.clock && a.locks == b.locks && a.txs == b.txs && a.mark == b.mark;
    assert a.histories == b.histories && a.lost == b.lost;
  }

  lemma RestoredCompacted(s: State, z: State, s': Store, z': Store, entries: map<Key, Entry>, x: Fault, c: TS, k: Key)
    requires KeyCompacted(s.store, z.store, s.mark, k)
    requires RecordOf(s', k) == Restored(s.store, entries, x, c, k)
             && RecordOf(z', k) == Restored(z.store, entries, x, c, k)
    ensures KeyCompacted(s', z', s.mark, k)
  {
  }

  lemma CompactedCommit(s: State, z: State, t: TxId)
    requires Compacted(s, z) && t in s.txs
    ensures Compacted(DoCommit(s, t), DoCommit(z, t))
  {
    hide KeyCompacted, RecordOf, Committed, Encode;
    var entries, c := s.txs[t].buffer.entries, s.clock + 1;
    assert Recorded(s, entries, c) == Recorded(z, entries, c) by { SameRecorded(s, z, entries, c); }
    forall k ensures KeyCompacted(DoCommit(s, t).store, DoCommit(z, t).store, s.mark, k) {
      assert KeyCompacted(s.store, z.store, s.mark, k);
      WriteCompacted(s.store, z.store, entries, c, s.mark, k);
    }
  }

  lemma SameRecorded(s: State, z: State, entries: map<Key, Entry>, c: TS)
    requires s.histories == z.histories
    ensures Recorded(s, entries, c) == Recorded(z, entries, c)
  {
    hide Committed;
    assert forall k :: HistoryOf(s, k) == HistoryOf(z, k);
  }

  lemma WriteCompacted(s: Store, z: Store, entries: map<Key, Entry>, c: TS, mark: TS, k: Key)
    requires KeyCompacted(s, z, mark, k)
    ensures KeyCompacted(Write(s, entries, entries.Keys, c), Write(z, entries, entries.Keys, c), mark, k)
  {
    hide Encode;
  }

  lemma CompactedMark(s: State, z: State, w: TS)
    requires Inv(s) && Compacted(s, z) && IsWatermark(s, w)
    ensures Compacted(Do(s, ReadMark(w)), Do(z, ReadMark(w)))
  {
    MarkStep(s, w);
    forall k ensures KeyCompacted(s.store, z.store, w, k) {
      assert KeyCompacted(s.store, z.store, s.mark, k);
    }
  }

  lemma CompactedWrite(s: State, z: State, a: Action)
    requires Compacted(s, z) && (a.PutKey? || a.DeleteKey?)
    ensures Compacted(Do(s, a), Do(z, a))
  {
    hide BufferPut, BufferDelete;
    assert KeyCompacted(s.store, z.store, s.mark, a.key);
    assert VisibleVersion(s.store, a.key) == VisibleVersion(z.store, a.key);
  }

  lemma CompactedStep(s: State, z: State, a: Action)
    requires Inv(s) && Inv(z) && Compacted(s, z)
    ensures a.Compact? ==> Compacted(Do(s, a), z)
    ensures !a.Compact? ==> Compacted(Do(s, a), Do(z, a))
  {
    hide Inv, DoFail, DoCommit, Write;
    match a
    case Compact(keys) => CompactedCompact(s, z, keys);
    case FailCommit(t, x) =>
      if t in s.txs && multiset(x.order) == multiset(s.txs[t].buffer.ordered) {
        CompactedFail(s, z, t, x);
      }
    case Commit(t) => if t in s.txs { CompactedCommit(s, z, t); }
    case PutKey(_, _, _) => CompactedWrite(s, z, a);
    case DeleteKey(_, _) => CompactedWrite(s, z, a);
    case ReadMark(w) => if IsWatermark(s, w) { CompactedMark(s, z, w); }
    case Begin(_) =>
    case Rollback(_) =>
  }

  /** The run without its compactions. */
  ghost function WithoutCompaction(actions: seq<Action>): seq<Action> {
    if actions == [] then []
    else WithoutCompaction(actions[..|actions| - 1]) + if actions[|actions| - 1].Compact? then []
      else [actions[|actions| - 1]]
  }

  lemma {:induction false} RunCompacted(actions: seq<Action>)
    ensures Compacted(Run(actions), Run(WithoutCompaction(actions)))
  {
    hide Compacted, Do;
    if actions == [] {
      CompactedRefl(START);
    } else {
      var front, a := actions[..|actions| - 1], actions[|actions| - 1];
      RunCompacted(front);
      RunInv(front);
      RunInv(WithoutCompaction(front));
      CompactedStep(Run(front), Run(WithoutCompaction(front)), a);
      if !a.Compact? {
        assert WithoutCompaction(actions)[..|WithoutCompaction(front)|] == WithoutCompaction(front);
      } else {
        assert WithoutCompaction(actions) == WithoutCompaction(front);
      }
    }
  }

  lemma CompactedRefl(s: State)
    ensures Compacted(s, s)
  {
  }

  /**
   Compaction is invisible: after any run, every active transaction reads every key as it would have
   read it had no compaction ever taken place, and holds the same locks and buffer.
   */
  lemma CompactionInvisible(actions: seq<Action>, t: TxId, k: Key)
    requires t in Run(actions).txs
    ensures var s, z := Run(actions), Run(WithoutCompaction(actions));
            && s.txs == z.txs && s.locks == z.locks && s.histories == z.histories
            && Get(s, t, k) == Get(z, t, k) && Visible(RecordOf(s.store, k)) == Visible(RecordOf(z.store, k))
  {
    hide Run, Fold, StandsFor;
    RunCompacted(actions);
    RunInv(actions);
    var s, z := Run(actions), Run(WithoutCompaction(actions));
    assert TxOK(s, t, s.txs[t]) && KeyCompacted(s.store, z.store, s.mark, k);
  }
}
